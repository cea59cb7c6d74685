/**
 * What the HTTP proxy makes of whole heads (crates/keli-net-core/src/http_proxy.rs): requests in
 * origin form, whose destination is in the Host field, and the heads it refuses.
 */
module OriginForm {
  import opened Wrappers
  import opened Bytes
  import opened Text
  import opened Net
  import opened HttpHeader
  import opened HttpProxy

  // ---------------------------------------------------------------------
  // Trimming
  // ---------------------------------------------------------------------

  /** Spaces and tabs. */
  predicate IsPad(s: bytes) { forall k :: 0 <= k < |s| ==> s[k] == 32 || s[k] == 9 }

  lemma WhiteLenOfPrefix(p: bytes, s: bytes)
    requires p <= s && WhiteLen(p) > 0
    ensures WhiteLen(s) > 0
  {
  }

  lemma {:induction false} TrimEndIsPrefix(s: bytes)
    ensures TrimEnd(s) <= s && WhiteEnd(TrimEnd(s)) == 0
    decreases |s|
  {
    hide WhiteEnd;
    if WhiteEnd(s) > 0 { TrimEndIsPrefix(s[..|s| - WhiteEnd(s)]); }
  }

  lemma {:induction false} TrimStartEnds(s: bytes)
    ensures WhiteLen(TrimStart(s)) == 0
    decreases |s|
  {
    hide WhiteLen;
    if WhiteLen(s) > 0 { TrimStartEnds(s[WhiteLen(s)..]); }
  }

  lemma TrimTwice(s: bytes)
    ensures Trim(Trim(s)) == Trim(s)
  {
    hide WhiteLen, WhiteEnd;
    var u := TrimStart(s);
    TrimStartEnds(s);
    TrimEndIsPrefix(u);
    if WhiteLen(TrimEnd(u)) > 0 { WhiteLenOfPrefix(TrimEnd(u), u); }
  }

  lemma {:induction false} TrimStartPad(pad: bytes, s: bytes)
    requires IsPad(pad)
    ensures TrimStart(pad + s) == TrimStart(s)
    decreases |pad|
  {
    if pad == [] {
      assert pad + s == s;
    } else {
      DropAppend(pad, s, 1);
      assert WhiteLen(pad + s) == 1;
      hide WhiteLen;
      TrimStartPad(pad[1..], s);
    }
  }

  lemma LastIsWhite(s: bytes)
    requires s != [] && (s[|s| - 1] == 32 || s[|s| - 1] == 9)
    ensures WhiteEnd(s) == 1
  {
    var last := s[|s| - 1..];
    assert |last| == 1 && last[0] == s[|s| - 1];
  }

  lemma {:induction false} TrimEndPad(s: bytes, pad: bytes)
    requires IsPad(pad)
    ensures TrimEnd(s + pad) == TrimEnd(s)
    decreases |pad|
  {
    hide WhiteEnd;
    var t := s + pad;
    if pad == [] {
      assert t == s;
    } else {
      assert t[|t| - 1] == pad[|pad| - 1];
      LastIsWhite(t);
      assert t[..|t| - 1] == s + pad[..|pad| - 1];
      TrimEndPad(s, pad[..|pad| - 1]);
    }
  }

  lemma {:induction false} TrimBeforePad(s: bytes, pad: bytes)
    requires IsPad(pad)
    ensures Trim(s + pad) == Trim(s)
    decreases |s|
  {
    if s == [] {
      assert s + pad == pad + s;
      TrimStartPad(pad, s);
    } else {
      WhiteLenCut(s, pad);
      hide WhiteLen, TrimEnd;
      var w := WhiteLen(s);
      if w > 0 {
        DropAppend(s, pad, w);
        TrimBeforePad(s[w..], pad);
      } else {
        TrimEndPad(s, pad);
      }
    }
  }

  /** White space around a value does not matter. */
  lemma TrimPadded(pad: bytes, s: bytes, end: bytes)
    requires IsPad(pad) && IsPad(end)
    ensures Trim(pad + s + end) == Trim(s)
  {
    TrimBeforePad(pad + s, end);
    TrimStartPad(pad, s);
    hide TrimStart, TrimEnd;
  }

  /** A value is read the same with the white space around it taken off. */
  lemma ReadsTrimmed(pad: bytes, s: bytes, end: bytes, default_: u16)
    requires IsPad(pad) && IsPad(end)
    ensures ParseHostPort(Trim(pad + s + end), default_) == ParseHostPort(s, default_)
  {
    hide Trim, SplitHostPort;
    TrimPadded(pad, s, end);
    TrimTwice(s);
  }

  // ---------------------------------------------------------------------
  // Field lines
  // ---------------------------------------------------------------------

  /** Field lines, each closed by CR LF. */
  function FieldBlock(fields: seq<bytes>): bytes {
    if fields == [] then [] else fields[0] + [13, 10] + FieldBlock(fields[1..])
  }

  /** A field line with another name than Host, or none. */
  predicate OtherField(line: bytes) { line != [] && NoBreak(line) && IsUtf8(line) && !NamesHost(line) }

  /** A field line with the name Host: its value is the host and optional port between white space. */
  function HostField(name: bytes, pad: bytes, host: bytes, port: Option<u16>, end: bytes): bytes {
    name + ([58] + (pad + FormatHost(host, port) + end))
  }

  lemma LineIsTail(line: bytes, tail: bytes)
    requires line != [] && NoBreak(line) && IsUtf8(line) && IsTail(tail) && IsUtf8(tail)
    ensures var t := line + [13, 10] + tail;
            IsTail(t) && IsUtf8(t) && Lines(t) == [line] + Lines(tail)
  {
    AsciiUtf8(CRLF);
    LineInFront(line, tail);
    hide IsUtf8, Lines, NoBreak, IndexCrlf;
    Utf8Append(CRLF, tail);
    Utf8Append(line, CRLF + tail);
    ConcatAssoc(line, CRLF, tail);
  }

  /** Field lines before a tail make a longer tail, with those lines in front. */
  lemma {:induction false} BlockIsTail(fields: seq<bytes>, tail: bytes)
    requires forall k :: 0 <= k < |fields| ==> OtherField(fields[k])
    requires IsTail(tail) && IsUtf8(tail)
    ensures var t := FieldBlock(fields) + tail;
            IsTail(t) && IsUtf8(t) && Lines(t) == fields + Lines(tail)
  {
    hide IsTail, IsUtf8, Lines, NamesHost, NoBreak;
    if fields == [] {
      assert FieldBlock(fields) + tail == tail;
    } else {
      var rest := fields[1..];
      BlockIsTail(rest, tail);
      assert OtherField(fields[0]);
      LineIsTail(fields[0], FieldBlock(rest) + tail);
      ConcatAssoc(fields[0] + [13, 10], FieldBlock(rest), tail);
      assert fields == [fields[0]] + rest;
    }
  }

  lemma SameLetterIsLetter(x: byte, y: byte)
    requires SameLetter(x, y) && 97 <= y <= 122
    ensures 65 <= x <= 122
  {
  }

  lemma LettersArePlain(s: bytes)
    requires forall k :: 0 <= k < |s| ==> 65 <= s[k] <= 122
    ensures 58 !in s && NoBreak(s) && IsUtf8(s)
  {
    AsciiUtf8(s);
    hide IsUtf8;
  }

  lemma SameWordIsLetters(name: bytes, word: bytes)
    requires EqIgnoreCase(name, word) && forall k :: 0 <= k < |word| ==> 97 <= word[k] <= 122
    ensures |name| == |word| && forall k :: 0 <= k < |name| ==> 65 <= name[k] <= 122
  {
    hide *;
    EqIgnoreCaseIff(name, word);
    forall k | 0 <= k < |name|
      ensures 65 <= name[k] <= 122
    {
      SameLetterIsLetter(name[k], word[k]);
    }
  }

  lemma HostNameIsPlain(name: bytes)
    requires EqIgnoreCase(name, [104, 111, 115, 116])
    ensures |name| == 4 && 58 !in name && NoBreak(name) && IsUtf8(name)
  {
    hide *;
    SameWordIsLetters(name, [104, 111, 115, 116]);
    LettersArePlain(name);
  }

  lemma FormattedNoBreak(host: bytes, port: u16)
    requires NoBreak(host)
    ensures NoBreak(FormatAuthority(host, port))
  {
    var d := Digits(port);
    hide Digits;
    assert NoBreak([58] + d);
  }

  lemma HostIsPlain(host: bytes, port: Option<u16>)
    requires NoBreak(host) && IsUtf8(host)
    ensures NoBreak(FormatHost(host, port)) && IsUtf8(FormatHost(host, port))
  {
    if port.Some? {
      hide IsUtf8;
      FormattedIsUtf8(host, port.value);
      FormattedNoBreak(host, port.value);
    } else if 58 in host {
      AsciiUtf8([91]);
      AsciiUtf8([93]);
      hide IsUtf8;
      Utf8Append(host, [93]);
      Utf8Append([91], host + [93]);
    }
  }

  lemma PlainAppend(a: bytes, b: bytes)
    requires NoBreak(a) && IsUtf8(a) && NoBreak(b) && IsUtf8(b)
    ensures NoBreak(a + b) && IsUtf8(a + b)
  {
    hide IsUtf8;
    Utf8Append(a, b);
  }

  lemma PadIsPlain(s: bytes)
    requires IsPad(s)
    ensures NoBreak(s) && IsUtf8(s)
  {
    AsciiUtf8(s);
  }

  lemma HostFieldIsLine(name: bytes, pad: bytes, host: bytes, port: Option<u16>, end: bytes)
    requires EqIgnoreCase(name, [104, 111, 115, 116]) && IsPad(pad) && IsPad(end) && NoBreak(host) && IsUtf8(host)
    ensures var line := HostField(name, pad, host, port, end);
            line != [] && NoBreak(line) && IsUtf8(line)
  {
    hide IsUtf8, FormatHost, EqIgnoreCase;
    var text := FormatHost(host, port);
    AsciiUtf8([58]);
    HostNameIsPlain(name);
    HostIsPlain(host, port);
    PadIsPlain(pad);
    PadIsPlain(end);
    assert NoBreak([58]);
    hide NoBreak;
    PlainAppend(pad, text);
    PlainAppend(pad + text, end);
    PlainAppend([58], pad + text + end);
    PlainAppend(name, [58] + (pad + text + end));
  }

  lemma HostFieldNames(name: bytes, value: bytes)
    requires EqIgnoreCase(name, [104, 111, 115, 116])
    ensures var line := name + ([58] + value);
            NamesHost(line) && line[IndexOf(line, 58) + 1..] == value
  {
    HostNameIsPlain(name);
    hide EqIgnoreCase, IsUtf8;
    IndexBehind(name, 58, value);
    hide IndexOf;
  }

  /** The first field line named Host gives the host. */
  lemma {:induction false} FoundAfter(before: seq<bytes>, line: bytes, more: seq<bytes>)
    requires (forall k :: 0 <= k < |before| ==> !NamesHost(before[k])) && NamesHost(line)
    ensures FindHostIn(before + ([line] + more)) == Some(Trim(line[IndexOf(line, 58) + 1..]))
  {
    hide Trim, EqIgnoreCase, IndexOf;
    var lines := before + ([line] + more);
    if before == [] {
      assert lines[0] == line;
    } else {
      assert lines[0] == before[0] && lines[1..] == before[1..] + ([line] + more);
      FoundAfter(before[1..], line, more);
    }
  }

  lemma {:induction false} NotFound(lines: seq<bytes>)
    requires forall k :: 0 <= k < |lines| ==> !NamesHost(lines[k])
    ensures FindHostIn(lines) == None
  {
    hide Trim, EqIgnoreCase, IndexOf;
    if lines != [] { NotFound(lines[1..]); }
  }

  lemma FieldsOfHead(verb: bytes, target: bytes, version: bytes, tail: bytes)
    requires verb != [] && target != [] && version != [] && NoWhite(verb) && NoWhite(target) && NoWhite(version)
    ensures HeaderLines(Head(verb, target, version, tail)) == Lines(tail)
  {
    hide NoWhite, Lines, Words, IndexCrlf;
    Spelled(verb, target, version, tail);
    hide Head, RequestLine;
    RequestLineFacts(verb, target, version);
    LineInFront(RequestLine(verb, target, version), tail);
    DropHead(RequestLine(verb, target, version), Lines(tail));
  }

  // ---------------------------------------------------------------------
  // Requests in origin form
  // ---------------------------------------------------------------------

  /** The path sent on: the target, with a slash put in front if it has none. */
  function OriginPath(target: bytes): bytes
    requires target != []
  {
    if target[0] == 47 then target else [47] + target
  }

  lemma SchemeHasSeparator(target: bytes)
    requires HTTP_SCHEME <= target
    ensures Contains(target, [58, 47, 47])
  {
    assert target[4..7] == [58, 47, 47];
    assert OccursAt(target, [58, 47, 47], 4);
  }

  /** A target without "://" is routed by the Host field. */
  lemma OriginRoute(text: bytes, target: bytes)
    requires target != [] && !Contains(target, [58, 47, 47])
    ensures var host := HostFromHeader(text);
            RouteTarget(text, target) == if host.Err? then Err(host.error)
                                         else Ok(Routed(host.value.host, host.value.port, OriginPath(target)))
  {
    hide HostFromHeader;
    hide Contains;
    if HTTP_SCHEME <= target { SchemeHasSeparator(target); }
  }

  /**
   * A request in origin form: after the request line any fields with other names, then a Host
   * field with a host and an optional port, then any tail. It is understood, with that host, that
   * port or 80, the target as path, and every field kept, if and only if the host is legible there
   * and the head keeps the cap.
   */
  lemma OriginFormIff(
    verb: bytes, target: bytes, version: bytes, before: seq<bytes>,
    name: bytes, pad: bytes, host: bytes, port: Option<u16>, end: bytes, tail: bytes, after: bytes)
    requires verb != [] && target != [] && version != [] && NoWhite(verb) && NoWhite(target) && NoWhite(version)
    requires IsUtf8(verb) && IsUtf8(target) && IsUtf8(version) && !Contains(target, [58, 47, 47])
    requires forall k :: 0 <= k < |before| ==> OtherField(before[k])
    requires EqIgnoreCase(name, [104, 111, 115, 116]) && IsPad(pad) && IsPad(end) && NoBreak(host) && IsUtf8(host)
    requires IsTail(tail) && IsUtf8(tail)
    ensures var fields := FieldBlock(before) + (HostField(name, pad, host, port, end) + [13, 10] + tail);
            var h, path := Head(verb, target, version, fields), OriginPath(target);
            ParseRequest(h + after)
            == Ok(ProxyRequest(verb, host, PortOr(port, 80), path, version, Head(verb, path, version, fields)))
            <==> LegibleWith(host, port) && |h| <= 16384
  {
    var line := HostField(name, pad, host, port, end);
    var fields := FieldBlock(before) + (line + [13, 10] + tail);
    var path := OriginPath(target);
    var h := Head(verb, target, version, fields);
    OriginFields(before, name, pad, host, port, end, tail);
    hide *;
    FieldsOfHead(verb, target, version, fields);
    OriginHost(h, before, name, pad, host, port, end, Lines(tail));
    HostRoundTrip(host, port, 80);
    OriginRoute(h, target);
    HeadRouted(verb, target, version, fields, after, Routed(host, PortOr(port, 80), path));
  }

  lemma OriginFields(before: seq<bytes>, name: bytes, pad: bytes, host: bytes, port: Option<u16>, end: bytes, tail: bytes)
    requires forall k :: 0 <= k < |before| ==> OtherField(before[k])
    requires EqIgnoreCase(name, [104, 111, 115, 116]) && IsPad(pad) && IsPad(end) && NoBreak(host) && IsUtf8(host)
    requires IsTail(tail) && IsUtf8(tail)
    ensures var line := HostField(name, pad, host, port, end);
            var fields := FieldBlock(before) + (line + [13, 10] + tail);
            IsTail(fields) && IsUtf8(fields) && Lines(fields) == before + ([line] + Lines(tail))
  {
    var line := HostField(name, pad, host, port, end);
    hide IsTail, IsUtf8, Lines, OtherField, EqIgnoreCase, HostField, NoBreak, FieldBlock;
    HostFieldIsLine(name, pad, host, port, end);
    LineIsTail(line, tail);
    BlockIsTail(before, line + [13, 10] + tail);
  }

  lemma OriginHost(text: bytes, before: seq<bytes>, name: bytes, pad: bytes, host: bytes, port: Option<u16>, end: bytes,
                   more: seq<bytes>)
    requires HeaderLines(text) == before + ([HostField(name, pad, host, port, end)] + more)
    requires forall k :: 0 <= k < |before| ==> OtherField(before[k])
    requires EqIgnoreCase(name, [104, 111, 115, 116]) && IsPad(pad) && IsPad(end)
    ensures HostFromHeader(text) == ParseHostPort(FormatHost(host, port), 80)
  {
    var value := pad + FormatHost(host, port) + end;
    hide HeaderLines, EqIgnoreCase, FindHostIn, NamesHost, ParseHostPort, FormatHost, IsUtf8, IndexOf, Trim;
    HostFieldNames(name, value);
    forall k | 0 <= k < |before|
      ensures !NamesHost(before[k])
    {
      assert OtherField(before[k]);
    }
    FoundAfter(before, name + ([58] + value), more);
    ReadsTrimmed(pad, FormatHost(host, port), end, 80);
  }

  // ---------------------------------------------------------------------
  // Heads that are refused, and why
  // ---------------------------------------------------------------------

  lemma ParseErr(h: bytes, verb: bytes, target: bytes, version: bytes)
    requires Lines(h) != [] && Words(Lines(h)[0]) == [verb, target, version] && RouteTarget(h, target).Err?
    ensures ParseText(h) == Err(RouteTarget(h, target).error)
  {
    hide Lines, Words, RouteTarget;
  }

  /** A head whose target does not route is refused for that, unless it is too large. */
  lemma HeadRefused(verb: bytes, target: bytes, version: bytes, tail: bytes, after: bytes)
    requires verb != [] && target != [] && version != [] && NoWhite(verb) && NoWhite(target) && NoWhite(version)
    requires IsUtf8(verb) && IsUtf8(target) && IsUtf8(version) && IsTail(tail) && IsUtf8(tail)
    requires RouteTarget(Head(verb, target, version, tail), target).Err?
    ensures var h := Head(verb, target, version, tail);
            ParseRequest(h + after) == Err(if |h| <= 16384 then RouteTarget(h, target).error else TooLarge)
  {
    hide *;
    var h := Head(verb, target, version, tail);
    Spelled(verb, target, version, tail);
    HeadOfWords(verb, target, version, tail);
    ParseErr(h, verb, target, version);
    ParseOfHead(h, after);
  }

  lemma {:induction false} FirstSeparator(s: bytes, n: nat)
    requires OccursAt(s, [58, 47, 47], n) && forall k :: 0 <= k < n ==> !OccursAt(s, [58, 47, 47], k)
    ensures SeparatorIndex(s) == Some(n)
    decreases n
  {
    if n > 0 {
      var t := s[1..];
      assert !OccursAt(s, [58, 47, 47], 0);
      forall k | 0 <= k && k + 4 <= |s|
        ensures OccursAt(t, [58, 47, 47], k) <==> OccursAt(s, [58, 47, 47], k + 1)
      {
        assert t[k..k + 3] == s[k + 1..k + 4];
      }
      FirstSeparator(t, n - 1);
    }
  }

  /** A target with another scheme than "http" before its first "://" is refused with that scheme. */
  lemma SchemeRefused(verb: bytes, scheme: bytes, rest: bytes, version: bytes, tail: bytes, after: bytes)
    requires var target := scheme + ([58, 47, 47] + rest);
             && verb != [] && version != [] && NoWhite(verb) && NoWhite(target) && NoWhite(version)
             && IsUtf8(verb) && IsUtf8(target) && IsUtf8(version)
             && forall k :: 0 <= k < |scheme| ==> !OccursAt(target, [58, 47, 47], k)
    requires scheme != [104, 116, 116, 112] && IsTail(tail) && IsUtf8(tail)
    ensures var h := Head(verb, scheme + ([58, 47, 47] + rest), version, tail);
            ParseRequest(h + after) == Err(if |h| <= 16384 then UnsupportedScheme(scheme) else TooLarge)
  {
    var target := scheme + ([58, 47, 47] + rest);
    SchemeRoute(Head(verb, target, version, tail), scheme, rest);
    hide *;
    HeadRefused(verb, target, version, tail, after);
  }

  lemma SchemeRoute(text: bytes, scheme: bytes, rest: bytes)
    requires var target := scheme + ([58, 47, 47] + rest);
             forall k :: 0 <= k < |scheme| ==> !OccursAt(target, [58, 47, 47], k)
    requires scheme != [104, 116, 116, 112]
    ensures RouteTarget(text, scheme + ([58, 47, 47] + rest)) == Err(UnsupportedScheme(scheme))
  {
    var target := scheme + ([58, 47, 47] + rest);
    assert target[|scheme|..|scheme| + 3] == [58, 47, 47];
    FirstSeparator(target, |scheme|);
    assert target[..|scheme|] == scheme;
    OtherScheme(scheme, rest);
    hide SeparatorIndex, OccursAt;
  }

  lemma OtherScheme(scheme: bytes, rest: bytes)
    requires var target := scheme + ([58, 47, 47] + rest);
             forall k :: 0 <= k < |scheme| ==> !OccursAt(target, [58, 47, 47], k)
    ensures HTTP_SCHEME <= scheme + ([58, 47, 47] + rest) ==> scheme == [104, 116, 116, 112]
  {
    var target := scheme + ([58, 47, 47] + rest);
    assert target[|scheme|] == 58 && target[..|scheme|] == scheme;
    if HTTP_SCHEME <= target {
      assert target[4..7] == [58, 47, 47];
      assert OccursAt(target, [58, 47, 47], 4);
    }
  }

  /** In origin form a head without a Host field is refused. */
  lemma NoHostRefused(verb: bytes, target: bytes, version: bytes, fields: seq<bytes>, after: bytes)
    requires verb != [] && target != [] && version != [] && NoWhite(verb) && NoWhite(target) && NoWhite(version)
    requires IsUtf8(verb) && IsUtf8(target) && IsUtf8(version) && !Contains(target, [58, 47, 47])
    requires forall k :: 0 <= k < |fields| ==> OtherField(fields[k])
    ensures var h := Head(verb, target, version, FieldBlock(fields) + [13, 10]);
            ParseRequest(h + after) == Err(if |h| <= 16384 then MissingHost else TooLarge)
  {
    var tail := FieldBlock(fields) + [13, 10];
    var h := Head(verb, target, version, tail);
    EmptyTail();
    hide *;
    BlockIsTail(fields, [13, 10]);
    FieldsOfHead(verb, target, version, tail);
    NoneNamed(h, fields);
    OriginRoute(h, target);
    HeadRefused(verb, target, version, tail, after);
  }

  lemma EmptyTail()
    ensures IsTail([13, 10]) && IsUtf8([13, 10]) && Lines([13, 10]) == [[]]
  {
    IndexCrlfIs([13, 10], 0);
    AsciiUtf8([13, 10]);
    EmptyLineOnly();
  }

  lemma NoneNamed(text: bytes, fields: seq<bytes>)
    requires HeaderLines(text) == fields + [[]]
    requires forall k :: 0 <= k < |fields| ==> OtherField(fields[k])
    ensures HostFromHeader(text) == Err(MissingHost)
  {
    hide HeaderLines, FindHostIn, EqIgnoreCase, IsUtf8;
    var lines := fields + [[]];
    forall k | 0 <= k < |lines|
      ensures !NamesHost(lines[k])
    {
      if k < |fields| { assert OtherField(fields[k]); }
    }
    NotFound(lines);
  }

  /** Words with a space between them. */
  function Sentence(words: seq<bytes>): bytes {
    if words == [] then [] else if |words| == 1 then words[0] else words[0] + ([32] + Sentence(words[1..]))
  }

  predicate IsWord(s: bytes) { s != [] && NoWhite(s) && IsUtf8(s) }

  lemma {:induction false} SentenceReads(words: seq<bytes>)
    requires forall k :: 0 <= k < |words| ==> IsWord(words[k])
    ensures Words(Sentence(words)) == words && NoBreak(Sentence(words)) && IsUtf8(Sentence(words))
  {
    hide NoWhite, Words, IsUtf8, NoBreak;
    if words == [] {
      NoWords();
    } else {
      assert IsWord(words[0]);
      WordReads(words[0]);
      if |words| > 1 {
        SentenceReads(words[1..]);
        SentenceGrows(words[0], Sentence(words[1..]));
        assert words == [words[0]] + words[1..];
      }
    }
  }

  lemma NoWords()
    ensures Words([]) == [] && NoBreak([]) && IsUtf8([])
  {
  }

  lemma WordReads(word: bytes)
    requires IsWord(word)
    ensures Words(word) == [word] && NoBreak(word)
  {
    NoWhiteNoBreak(word);
    hide NoWhite, IsUtf8;
    LastWord(word);
  }

  lemma SentenceGrows(word: bytes, more: bytes)
    requires IsWord(word) && NoBreak(word) && NoBreak(more) && IsUtf8(more)
    ensures var s := word + ([32] + more);
            Words(s) == [word] + Words(more) && NoBreak(s) && IsUtf8(s)
  {
    Utf8Ascii(32);
    hide NoWhite, Words, IsUtf8;
    NextWord(word, more);
    Utf8Append([32], more);
    Utf8Append(word, [32] + more);
  }

  /** A request line of more or fewer than three words is refused, whatever follows. */
  lemma WordCountRefused(words: seq<bytes>, tail: bytes, after: bytes)
    requires forall k :: 0 <= k < |words| ==> IsWord(words[k])
    requires |words| != 3 && IsTail(tail) && IsUtf8(tail)
    ensures var h := Sentence(words) + [13, 10] + tail;
            ParseRequest(h + after) == Err(if |h| <= 16384 then InvalidRequestLine else TooLarge)
  {
    var line := Sentence(words);
    SentenceReads(words);
    hide *;
    HeadOfLine(line, tail);
    BadLine(line + [13, 10] + tail);
    ParseOfHead(line + [13, 10] + tail, after);
  }

  lemma BadLine(h: bytes)
    requires Lines(h) != [] && |Words(Lines(h)[0])| != 3
    ensures ParseText(h) == Err(InvalidRequestLine)
  {
    hide Lines, Words;
  }

  /** A line, CR LF and a tail make a complete head with that first line. */
  lemma HeadOfLine(line: bytes, tail: bytes)
    requires NoBreak(line) && IsUtf8(line) && IsTail(tail) && IsUtf8(tail)
    ensures var h := line + [13, 10] + tail;
            IsHeader(h) && IsUtf8(h) && Lines(h) != [] && Lines(h)[0] == line
  {
    AsciiUtf8(CRLF);
    hide *;
    LineInFront(line, tail);
    HeaderOfLine(line, tail);
    Utf8Append(CRLF, tail);
    Utf8Append(line, CRLF + tail);
    ConcatAssoc(line, CRLF, tail);
  }

  /** Without a complete head within the cap the stream fails or is too large; a complete one must be UTF-8. */
  lemma StreamRefused(stream: bytes, h: bytes)
    ensures (forall n :: 0 <= n <= |stream| && n <= 16384 ==> !IsHeader(stream[..n])) ==>
              ParseRequest(stream) == Err(if |stream| < 16384 then IoError else TooLarge)
    ensures h <= stream && |h| <= 16384 && IsHeader(h) && !IsUtf8(h) ==> ParseRequest(stream) == Err(InvalidUtf8)
  {
    hide IsHeader, IsUtf8, ReadHeader, ParseText;
    if forall n :: 0 <= n <= |stream| && n <= 16384 ==> !IsHeader(stream[..n]) { NoHeaderRefused(stream); }
    ReadHeaderIff(stream, h);
  }
}
