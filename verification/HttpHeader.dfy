/**
 * HTTP request heads: reading one off a stream, and its lines and words
 * (crates/keli-net-core/src/http_proxy.rs and http_connect.rs). Text is its UTF-8 octets.
 */
module HttpHeader {
  import opened Wrappers
  import opened Bytes
  import opened Text

  const MAX_HEADER_BYTES: nat := 16 * 1024
  const CRLF: bytes := [13, 10]

  /** CR LF CR LF at position `k`. */
  predicate MarkAt(s: bytes, k: nat) {
    k + 4 <= |s| && s[k] == 13 && s[k + 1] == 10 && s[k + 2] == 13 && s[k + 3] == 10
  }

  predicate CrlfAt(s: bytes, k: nat) {
    k + 2 <= |s| && s[k] == 13 && s[k + 1] == 10
  }

  /** A complete head: it ends in CR LF CR LF and contains that nowhere before. */
  predicate IsHeader(h: bytes) {
    |h| >= 4 && MarkAt(h, |h| - 4) && forall k :: 0 <= k < |h| - 4 ==> !MarkAt(h, k)
  }

  // ---------------------------------------------------------------------
  // read_header
  // ---------------------------------------------------------------------

  datatype ReadError = Io | HeaderTooLarge

  /** The shortest complete head among the prefixes of `s` longer than `n`. */
  function HeaderEnd(s: bytes, n: nat): Option<nat>
    requires n <= |s|
    decreases |s| - n
  {
    if n == |s| then None
    else if n >= 3 && MarkAt(s, n - 3) then Some(n + 1)
    else HeaderEnd(s, n + 1)
  }

  lemma {:induction false} HeaderEndIff(s: bytes, n: nat, end: nat)
    requires n <= |s|
    ensures HeaderEnd(s, n) == Some(end)
            <==> n < end <= |s| && end >= 4 && MarkAt(s, end - 4)
                 && forall k :: 0 <= k < end - 4 && n < k + 4 ==> !MarkAt(s, k)
    decreases |s| - n
  {
    if n < |s| && !(n >= 3 && MarkAt(s, n - 3)) { HeaderEndIff(s, n + 1, end); }
  }

  /** A stream that delivers `data` and then fails every read. */
  class Reader {
    const data: bytes
    var position: nat

    constructor (data: bytes)
      ensures this.data == data && position == 0
    {
      this.data, position := data, 0;
    }

    ghost predicate Valid()
      reads this
    {
      position <= |data|
    }

    /** `read_exact` of one octet. */
    method ReadByte() returns (b: Option<byte>)
      requires Valid()
      modifies this
      ensures Valid()
      ensures b == (if old(position) < |data| then Some(data[old(position)]) else None)
      ensures position == if b.Some? then old(position) + 1 else old(position)
    {
      if position == |data| { return None; }
      b := Some(data[position]);
      position := position + 1;
    }
  }

  /** What `read_header` makes of the octets ahead: the head or an error, and how much it consumes. */
  datatype HeaderRead = HeaderRead(result: Result<bytes, ReadError>, consumed: nat)

  function ReadHeader(s: bytes): HeaderRead {
    var end := HeaderEnd(s, 0);
    if end.Some? && end.value <= MAX_HEADER_BYTES && end.value <= |s| then HeaderRead(Ok(s[..end.value]), end.value)
    else if |s| < MAX_HEADER_BYTES then HeaderRead(Err(Io), |s|)
    else HeaderRead(Err(HeaderTooLarge), MAX_HEADER_BYTES)
  }

  /** Both `read_header` functions: octet by octet, so nothing beyond the head is consumed. */
  method ReadHeaderFrom(reader: Reader) returns (result: Result<bytes, ReadError>)
    requires reader.Valid()
    modifies reader
    ensures reader.Valid()
    ensures var ahead := reader.data[old(reader.position)..];
            result == ReadHeader(ahead).result && reader.position == old(reader.position) + ReadHeader(ahead).consumed
  {
    ghost var start := reader.position;
    ghost var ahead := reader.data[start..];
    var header: bytes := [];
    while |header| < MAX_HEADER_BYTES
      invariant reader.Valid()
      invariant |header| <= |ahead| && |header| <= MAX_HEADER_BYTES
      invariant header == ahead[..|header|] && reader.position == start + |header|
      invariant HeaderEnd(ahead, |header|) == HeaderEnd(ahead, 0)
      decreases MAX_HEADER_BYTES - |header|
    {
      var b := reader.ReadByte();
      if b.None? { return Err(Io); }
      ghost var n := |header|;
      header := header + [b.value];
      assert header == ahead[..n + 1];
      if |header| >= 4 && header[|header| - 4..] == [13, 10, 13, 10] {
        MarkOfSlice(ahead, n + 1);
        return Ok(header);
      }
      MarkOfSlice(ahead, n + 1);
    }
    HeaderEndLater(ahead, |header|);
    assert |header| == MAX_HEADER_BYTES <= |ahead|;
    assert ReadHeader(ahead) == HeaderRead(Err(HeaderTooLarge), MAX_HEADER_BYTES);
    result := Err(HeaderTooLarge);
  }

  lemma MarkOfSlice(s: bytes, n: nat)
    requires n <= |s|
    ensures n >= 4 ==> (s[..n][n - 4..] == [13, 10, 13, 10] <==> MarkAt(s, n - 4))
  {
    if n >= 4 { assert s[..n][n - 4..] == [s[n - 4], s[n - 3], s[n - 2], s[n - 1]]; }
  }

  lemma HeaderEndLater(s: bytes, n: nat)
    requires n <= |s|
    ensures HeaderEnd(s, n).Some? ==> n < HeaderEnd(s, n).value <= |s|
  {
    if HeaderEnd(s, n).Some? { HeaderEndIff(s, n, HeaderEnd(s, n).value); }
  }

  /**
   * The result is exact: a head is returned if and only if it is the shortest prefix ending in
   * CR LF CR LF and at most 16384 octets long, and then exactly its octets are consumed.
   */
  lemma ReadHeaderIff(s: bytes, h: bytes)
    ensures ReadHeader(s).result == Ok(h) <==> h <= s && IsHeader(h) && |h| <= 16384
    ensures ReadHeader(s).result == Ok(h) ==> ReadHeader(s).consumed == |h|
  {
    HeaderEndLater(s, 0);
    if h <= s {
      PrefixMarks(s, |h|);
      HeaderEndIff(s, 0, |h|);
      assert s[..|h|] == h;
    }
    if HeaderEnd(s, 0).Some? {
      HeaderEndIff(s, 0, HeaderEnd(s, 0).value);
      PrefixMarks(s, HeaderEnd(s, 0).value);
    }
  }

  lemma PrefixMarks(s: bytes, n: nat)
    requires n <= |s|
    ensures forall k :: 0 <= k && k + 4 <= n ==> (MarkAt(s[..n], k) <==> MarkAt(s, k))
  {
  }

  /** A head longer than the cap is refused after exactly 16384 octets. */
  lemma LongHeaderRefused(h: bytes, after: bytes)
    requires IsHeader(h) && |h| > 16384
    ensures ReadHeader(h + after) == HeaderRead(Err(HeaderTooLarge), 16384)
  {
    var s := h + after;
    HeaderEndLater(s, 0);
    if HeaderEnd(s, 0).Some? {
      var end := HeaderEnd(s, 0).value;
      HeaderEndIff(s, 0, end);
      if end < |h| { assert MarkAt(h, end - 4); }
    }
  }

  /** A stream without a complete head within the cap: reading fails where it ends, or stops at 16384 octets. */
  lemma NoHeaderRefused(s: bytes)
    requires forall n :: 0 <= n <= |s| && n <= 16384 ==> !IsHeader(s[..n])
    ensures ReadHeader(s)
            == if |s| < 16384 then HeaderRead(Err(Io), |s|) else HeaderRead(Err(HeaderTooLarge), 16384)
  {
    hide IsHeader, HeaderEnd;
    HeaderEndLater(s, 0);
    var end := HeaderEnd(s, 0);
    if end.Some? { ReadHeaderIff(s, s[..end.value]); }
  }

  // ---------------------------------------------------------------------
  // Lines
  // ---------------------------------------------------------------------

  /** The index of the first octet `b`, or the length. */
  function IndexOf(s: bytes, b: byte): (i: nat)
    ensures i <= |s| && (i < |s| ==> s[i] == b) && forall k :: 0 <= k < i ==> s[k] != b
  {
    if s == [] || s[0] == b then 0 else 1 + IndexOf(s[1..], b)
  }

  function StripCr(line: bytes): bytes {
    if line != [] && line[|line| - 1] == 13 then line[..|line| - 1] else line
  }

  /** `str::lines`. */
  function Lines(s: bytes): seq<bytes>
    decreases |s|
  {
    if s == [] then []
    else
      var i := IndexOf(s, 10);
      if i == |s| then [s] else [StripCr(s[..i])] + Lines(s[i + 1..])
  }

  /** The index of the first CR LF. */
  function IndexCrlf(s: bytes): (i: Option<nat>)
    ensures i.Some? ==> i.value + 2 <= |s| && CrlfAt(s, i.value) && forall k :: 0 <= k < i.value ==> !CrlfAt(s, k)
    ensures i.None? ==> forall k :: 0 <= k < |s| ==> !CrlfAt(s, k)
  {
    if s == [] then None
    else if CrlfAt(s, 0) then Some(0)
    else
      var j := IndexCrlf(s[1..]);
      assert forall k :: 1 <= k < |s| ==> (CrlfAt(s, k) <==> CrlfAt(s[1..], k - 1));
      if j.None? then None else Some(j.value + 1)
  }

  lemma IndexCrlfIs(s: bytes, i: nat)
    requires CrlfAt(s, i) && forall k :: 0 <= k < i ==> !CrlfAt(s, k)
    ensures IndexCrlf(s) == Some(i)
  {
  }

  /** `str::split("\\r\\n")`. */
  function SplitCrlf(s: bytes): seq<bytes>
    decreases |s|
  {
    var i := IndexCrlf(s);
    if i.None? then [s] else [s[..i.value]] + SplitCrlf(s[i.value + 2..])
  }

  /** What follows the first line of a complete head: non-empty lines and an empty one. */
  predicate IsTail(t: bytes)
    decreases |t|
  {
    var i := IndexCrlf(t);
    i.Some? && if i.value == 0 then t == CRLF else IsTail(t[i.value + 2..])
  }

  /** The next CR LF after one that is not the last closes the head or another line. */
  lemma NextCrlf(h: bytes, i: nat)
    requires IsHeader(h) && CrlfAt(h, i) && i + 4 <= |h|
    ensures var j := IndexCrlf(h[i + 2..]);
            && j.Some?
            && (j.value == 0 ==> h[i + 2..] == CRLF)
            && (j.value > 0 ==> CrlfAt(h, i + 2 + j.value) && i + 2 + j.value + 4 <= |h|)
  {
    var t := h[i + 2..];
    assert CrlfAt(t, |t| - 2);
    var j := IndexCrlf(t).value;
    assert CrlfAt(h, i + 2 + j);
    if j == 0 {
      assert MarkAt(h, i);
    } else {
      assert i + 2 <= |h| - 4;
      assert CrlfAt(t, |h| - 4 - (i + 2));
    }
  }

  lemma {:induction false} TailOfHeader(h: bytes, i: nat)
    requires IsHeader(h) && CrlfAt(h, i) && i + 4 <= |h|
    ensures IsTail(h[i + 2..])
    decreases |h| - i
  {
    NextCrlf(h, i);
    hide IsHeader, CrlfAt, IndexCrlf;
    var j := IndexCrlf(h[i + 2..]).value;
    if j > 0 {
      TailOfHeader(h, i + 2 + j);
      DropTwice(h, i + 2, j + 2);
    }
  }

  /** Octets that end a line and hold no complete head. */
  predicate OpenHead(p: bytes) {
    |p| >= 2 && CrlfAt(p, |p| - 2) && forall k :: 0 <= k < |p| ==> !MarkAt(p, k)
  }

  lemma {:induction false} HeaderOfTail(p: bytes, t: bytes)
    requires OpenHead(p) && IsTail(t)
    ensures IsHeader(p + t)
    decreases |t|
  {
    var i := IndexCrlf(t).value;
    if i == 0 {
      var h := p + t;
      assert MarkAt(h, |p| - 2);
      forall k | 0 <= k < |h| - 4
        ensures !MarkAt(h, k)
      {
        if k + 4 <= |p| { assert MarkAt(h, k) <==> MarkAt(p, k); }
      }
    } else {
      ExtendOpenHead(p, t, i);
      HeaderOfTail(p + t[..i + 2], t[i + 2..]);
      assert p + t == (p + t[..i + 2]) + t[i + 2..];
    }
  }

  lemma ExtendOpenHead(p: bytes, t: bytes, i: nat)
    requires OpenHead(p) && i > 0 && CrlfAt(t, i) && forall k :: 0 <= k < i ==> !CrlfAt(t, k)
    ensures OpenHead(p + t[..i + 2])
  {
    var q := p + t[..i + 2];
    forall k | 0 <= k < |q|
      ensures !MarkAt(q, k)
    {
      if k + 4 <= |p| {
        assert MarkAt(q, k) <==> MarkAt(p, k);
      } else if k + 2 < |p| {
        assert q[k + 2] == p[|p| - 1] == 10;
      } else if k + 4 <= |q| {
        var j := k + 2 - |p|;
        assert q[k + 2] == t[j] && q[k + 3] == t[j + 1];
        if j < i {
          assert !CrlfAt(t, j);
        } else if j == 1 {
          assert q[k] == p[|p| - 1];
        } else {
          assert !CrlfAt(t, j - 2);
          assert q[k] == t[j - 2] && q[k + 1] == t[j - 1];
        }
      }
    }
  }

  /** The lines of a tail, each closed by CR LF, up to and including the empty one. */
  function EmitLines(pieces: seq<bytes>): bytes {
    if pieces == [] then []
    else if pieces[0] == [] then CRLF
    else pieces[0] + CRLF + EmitLines(pieces[1..])
  }

  /** Splitting a tail at CR LF and writing the lines out again gives the tail back. */
  lemma {:induction false} EmitTail(t: bytes)
    requires IsTail(t)
    ensures EmitLines(SplitCrlf(t)) == t
    decreases |t|
  {
    hide CrlfAt, IndexCrlf;
    var i := IndexCrlf(t).value;
    if i > 0 {
      EmitTail(t[i + 2..]);
      hide IsTail;
      AtCrlf(t, i);
      EmitCons(t[..i], SplitCrlf(t[i + 2..]));
    } else {
      EmitEmpty(t[..0], SplitCrlf(t[2..]));
    }
  }

  lemma EmitCons(line: bytes, pieces: seq<bytes>)
    requires line != []
    ensures EmitLines([line] + pieces) == line + CRLF + EmitLines(pieces)
  {
    assert ([line] + pieces)[1..] == pieces;
  }

  lemma EmitEmpty(line: bytes, pieces: seq<bytes>)
    requires line == []
    ensures EmitLines([line] + pieces) == CRLF
  {
  }

  lemma AtCrlf(t: bytes, i: nat)
    requires CrlfAt(t, i)
    ensures t == t[..i] + CRLF + t[i + 2..]
  {
    assert t[i..i + 2] == CRLF;
    assert t == t[..i] + t[i..i + 2] + t[i + 2..];
  }

  // ---------------------------------------------------------------------
  // Words
  // ---------------------------------------------------------------------

  /** The length of the Unicode white-space character at the front, or 0. */
  function WhiteLen(s: bytes): (n: nat)
    ensures n <= |s|
  {
    if s == [] then 0
    else if 9 <= s[0] <= 13 || s[0] == 32 then 1
    else if |s| >= 2 && s[0] == 0xc2 && (s[1] == 0x85 || s[1] == 0xa0) then 2
    else if |s| >= 3 && IsWide(s[0], s[1], s[2]) then 3
    else 0
  }

  /** U+1680, U+2000 to U+200A, U+2028, U+2029, U+202F, U+205F and U+3000. */
  predicate IsWide(a: byte, b: byte, c: byte) {
    || (a == 0xe1 && b == 0x9a && c == 0x80)
    || (a == 0xe2 && b == 0x80 && (0x80 <= c <= 0x8a || c == 0xa8 || c == 0xa9 || c == 0xaf))
    || (a == 0xe2 && b == 0x81 && c == 0x9f)
    || (a == 0xe3 && b == 0x80 && c == 0x80)
  }

  /** The code points with the Unicode property White_Space. */
  predicate IsWhiteSpace(c: int) {
    || 0x9 <= c <= 0xd || c == 0x20 || c == 0x85 || c == 0xa0 || c == 0x1680 || 0x2000 <= c <= 0x200a
    || c == 0x2028 || c == 0x2029 || c == 0x202f || c == 0x205f || c == 0x3000
  }

  /** White space is recognised by its octets exactly where a white-space character stands. */
  lemma WhiteLenIff(s: bytes)
    requires CharLen(s) > 0
    ensures WhiteLen(s) == if IsWhiteSpace(CodePoint(s)) then CharLen(s) else 0
  {
    var n, lead: int := CharLen(s), s[0];
    if n == 2 { Unfold1(lead - 0xc0, s[1..2]); }
    if n == 3 { Unfold2(lead - 0xe0, s[1..3]); }
    if n == 4 { Unfold3(lead - 0xf0, s[1..4]); }
  }

  /** The length of the word at the front: everything up to white space. */
  function WordLen(s: bytes): (n: nat)
    ensures n <= |s|
  {
    if s == [] || WhiteLen(s) > 0 then 0 else 1 + WordLen(s[1..])
  }

  /** `split_whitespace`. */
  function Words(s: bytes): seq<bytes>
    decreases |s|
  {
    if s == [] then []
    else if WhiteLen(s) > 0 then Words(s[WhiteLen(s)..])
    else [s[..WordLen(s)]] + Words(s[WordLen(s)..])
  }

  /** Octets with no white space in them, wherever one starts reading. */
  predicate NoWhite(s: bytes) {
    forall k :: 0 <= k < |s| ==> WhiteLen(s[k..]) == 0
  }

  /** `trim_start`. */
  function TrimStart(s: bytes): bytes
    decreases |s|
  {
    if WhiteLen(s) > 0 then TrimStart(s[WhiteLen(s)..]) else s
  }

  /** The length of the white-space character at the end, or 0. */
  function WhiteEnd(s: bytes): (n: nat)
    ensures n <= |s|
  {
    if |s| >= 1 && WhiteLen(s[|s| - 1..]) == 1 then 1
    else if |s| >= 2 && WhiteLen(s[|s| - 2..]) == 2 then 2
    else if |s| >= 3 && WhiteLen(s[|s| - 3..]) == 3 then 3
    else 0
  }

  /** `trim_end`. */
  function TrimEnd(s: bytes): bytes
    decreases |s|
  {
    if WhiteEnd(s) > 0 then TrimEnd(s[..|s| - WhiteEnd(s)]) else s
  }

  /** `str::trim`. */
  function Trim(s: bytes): bytes { TrimEnd(TrimStart(s)) }

  /** White space at the front does not depend on what comes after an octet that is no continuation. */
  lemma WhiteLenCut(s: bytes, after: bytes)
    requires s != [] && (after == [] || !Continuation(after[0]))
    ensures WhiteLen(s + after) == WhiteLen(s)
  {
  }

  lemma NoWhiteAt(s: bytes, k: nat)
    requires NoWhite(s) && k < |s|
    ensures WhiteLen(s[k..]) == 0
  {
  }

  lemma {:induction false} WordLenOf(word: bytes, after: bytes)
    requires NoWhite(word) && (after == [] || (!Continuation(after[0]) && WhiteLen(after) > 0))
    ensures WordLen(word + after) == |word|
    decreases |word|
  {
    hide WhiteLen, NoWhite;
    if word == [] {
      assert word + after == after;
    } else {
      NoWhiteAt(word, 0);
      assert word[0..] == word;
      WhiteLenCut(word, after);
      DropAppend(word, after, 1);
      NoWhiteDrop(word, 1);
      WordLenOf(word[1..], after);
    }
  }

  lemma NoWhiteDrop(s: bytes, n: nat)
    requires NoWhite(s) && n <= |s|
    ensures NoWhite(s[n..])
  {
    forall k | 0 <= k < |s[n..]|
      ensures WhiteLen(s[n..][k..]) == 0
    {
      DropTwice(s, n, k);
    }
  }

  /** A word put in front of white space is the first word. */
  lemma WordsCons(word: bytes, after: bytes)
    requires word != [] && NoWhite(word) && (after == [] || (!Continuation(after[0]) && WhiteLen(after) > 0))
    ensures Words(word + after) == [word] + Words(after)
  {
    var s := word + after;
    WordLenOf(word, after);
    assert word[0..] == word;
    WhiteLenCut(word, after);
    assert s[..|word|] == word && s[|word|..] == after;
  }

  lemma {:induction false} WordLenNoWhite(s: bytes)
    ensures forall k :: 0 <= k < WordLen(s) ==> WhiteLen(s[k..]) == 0
    ensures WordLen(s) < |s| ==> WhiteLen(s[WordLen(s)..]) > 0
  {
    if s != [] && WhiteLen(s) == 0 {
      WordLenNoWhite(s[1..]);
      forall k | 0 <= k < WordLen(s)
        ensures WhiteLen(s[k..]) == 0
      {
        if k > 0 { DropTwice(s, 1, k - 1); } else { assert s[0..] == s; }
      }
      DropTwice(s, 1, WordLen(s) - 1);
    }
  }

  lemma WhiteLenLead(s: bytes)
    requires WhiteLen(s) > 0
    ensures !Continuation(s[0])
  {
  }

  /** Cutting a word off where white space begins leaves it without white space. */
  lemma WordNoWhite(s: bytes)
    ensures NoWhite(s[..WordLen(s)])
  {
    var n := WordLen(s);
    WordLenNoWhite(s);
    if n < |s| { WhiteLenLead(s[n..]); }
    forall k | 0 <= k < n
      ensures WhiteLen(s[..n][k..]) == 0
    {
      assert s[k..] == s[..n][k..] + s[n..];
      WhiteLenCut(s[..n][k..], s[n..]);
    }
  }

  /** Every word is non-empty and free of white space. */
  lemma {:induction false} WordsAreWords(s: bytes)
    ensures forall i :: 0 <= i < |Words(s)| ==> Words(s)[i] != [] && NoWhite(Words(s)[i])
    decreases |s|
  {
    hide NoWhite, WhiteLen;
    if s != [] {
      if WhiteLen(s) > 0 {
        WordsAreWords(s[WhiteLen(s)..]);
      } else {
        WordNoWhite(s);
        WordsAreWords(s[WordLen(s)..]);
      }
    }
  }

  /** A request line of three words is read back as those words. */
  lemma ThreeWords(a: bytes, b: bytes, c: bytes)
    requires a != [] && b != [] && c != [] && NoWhite(a) && NoWhite(b) && NoWhite(c)
    ensures Words(a + [32] + b + [32] + c) == [a, b, c]
  {
    hide *;
    var tail := [32] + c;
    var rest := [32] + (b + tail);
    LastWord(c);
    NextWord(b, c);
    NextWord(a, b + tail);
    Regroup(a, b, c);
  }

  lemma LastWord(c: bytes)
    requires c != [] && NoWhite(c)
    ensures Words(c) == [c]
  {
    WordsCons(c, []);
    assert c + [] == c;
  }

  lemma NextWord(word: bytes, more: bytes)
    requires word != [] && NoWhite(word)
    ensures Words(word + ([32] + more)) == [word] + Words(more)
  {
    hide NoWhite;
    SpaceWord(more);
    WordsCons(word, [32] + more);
  }

  lemma Regroup(a: bytes, b: bytes, c: bytes)
    ensures a + [32] + b + [32] + c == a + ([32] + (b + ([32] + c)))
  {
  }

  lemma SpaceWord(s: bytes)
    ensures WhiteLen([32] + s) == 1 && Words([32] + s) == Words(s)
  {
    assert ([32] + s)[1..] == s;
  }

  /** Words hold no line break. */
  lemma NoWhiteNoBreak(s: bytes)
    requires NoWhite(s)
    ensures forall k :: 0 <= k < |s| ==> s[k] != 10 && s[k] != 13 && s[k] != 32
  {
    forall k | 0 <= k < |s|
      ensures s[k] != 10 && s[k] != 13 && s[k] != 32
    {
      assert s[k..][0] == s[k];
    }
  }
}
