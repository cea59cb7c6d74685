/** IP addresses and port-sized integers shared by the resolver and the router. */
module Net {
  type u16 = n: int | 0 <= n < 0x1_0000
  type u32 = n: int | 0 <= n < 0x1_0000_0000
  type u128 = n: int | 0 <= n < 0x1_0000_0000_0000_0000_0000_0000_0000_0000

  /** An address as the integer its octets spell in network order. */
  datatype IpAddr = V4(v4: u32) | V6(v6: u128)

  /** The values of the IPv4 addresses in a list, in order. */
  function V4Values(ips: seq<IpAddr>): seq<nat> {
    if ips == [] then [] else (if ips[0].V4? then [ips[0].v4] else []) + V4Values(ips[1..])
  }

  /** The values of the IPv6 addresses in a list, in order. */
  function V6Values(ips: seq<IpAddr>): seq<nat> {
    if ips == [] then [] else (if ips[0].V6? then [ips[0].v6] else []) + V6Values(ips[1..])
  }

  lemma ValuesCons(ip: IpAddr, rest: seq<IpAddr>)
    ensures V4Values([ip] + rest) == (if ip.V4? then [ip.v4] + V4Values(rest) else V4Values(rest))
    ensures V6Values([ip] + rest) == (if ip.V6? then [ip.v6] + V6Values(rest) else V6Values(rest))
  {
    var ips := [ip] + rest;
    assert ips[0] == ip && ips[1..] == rest;
    assert [] + V4Values(rest) == V4Values(rest) && [] + V6Values(rest) == V6Values(rest);
  }

  lemma {:induction false} ValuesCount(ips: seq<IpAddr>)
    ensures |V4Values(ips)| + |V6Values(ips)| == |ips|
  {
    if ips != [] { ValuesCount(ips[1..]); }
  }
}

/**
 * Rust string operations on UTF-8 octets. The patterns searched for are ASCII, and an octet below
 * 128 is always a whole character, so working on octets is working on characters.
 */
module Text {
  import opened Wrappers
  import opened Bytes

  predicate Continuation(b: byte) { 0x80 <= b < 0xc0 }

  /** The length of the well-formed character at the front, or 0 if there is none. */
  function CharLen(s: bytes): (n: nat)
    ensures n <= |s|
  {
    if s == [] then 0
    else if s[0] < 0x80 then 1
    else if |s| < 2 || !SecondOk(s[0], s[1]) then 0
    else if s[0] < 0xe0 then 2
    else if |s| < 3 || !Continuation(s[2]) then 0
    else if s[0] < 0xf0 then 3
    else if |s| < 4 || !Continuation(s[3]) then 0
    else 4
  }

  /** Which second octets may follow a lead octet: no overlong forms, surrogates or values above U+10FFFF. */
  predicate SecondOk(lead: byte, second: byte) {
    if lead < 0xc2 then false
    else if lead == 0xe0 then 0xa0 <= second < 0xc0
    else if lead == 0xed then 0x80 <= second < 0xa0
    else if lead == 0xf0 then 0x90 <= second < 0xc0
    else if lead == 0xf4 then 0x80 <= second < 0x90
    else lead <= 0xf4 && Continuation(second)
  }

  /** `str::from_utf8` succeeds. */
  predicate IsUtf8(s: bytes)
    decreases |s|
  {
    s == [] || (CharLen(s) > 0 && IsUtf8(s[CharLen(s)..]))
  }

  // ---------------------------------------------------------------------
  // Reference: the encoding of code points, section 3 of RFC 3629
  // ---------------------------------------------------------------------

  predicate IsScalar(c: nat) { c < 0xd800 || 0xe000 <= c < 0x11_0000 }

  function EncodeChar(c: nat): bytes
    requires IsScalar(c)
  {
    if c < 0x80 then [c]
    else if c < 0x800 then [0xc0 + c / 0x40, 0x80 + c % 0x40]
    else if c < 0x1_0000 then [0xe0 + c / 0x1000, 0x80 + c / 0x40 % 0x40, 0x80 + c % 0x40]
    else [0xf0 + c / 0x4_0000, 0x80 + c / 0x1000 % 0x40, 0x80 + c / 0x40 % 0x40, 0x80 + c % 0x40]
  }

  /** The value of a lead octet's payload followed by continuation octets. */
  function Sextets(lead: nat, rest: bytes): int
    decreases |rest|
  {
    if rest == [] then lead else Sextets(lead, rest[..|rest| - 1]) * 0x40 + (rest[|rest| - 1] as int - 0x80)
  }

  /** The code point of the well-formed character at the front. */
  function CodePoint(s: bytes): int
    requires CharLen(s) > 0
  {
    var n, lead: int := CharLen(s), s[0];
    Sextets(if n == 1 then lead else if n == 2 then lead - 0xc0 else if n == 3 then lead - 0xe0 else lead - 0xf0, s[1..n])
  }

  lemma Sextet(high: nat, low: nat)
    requires low < 0x40
    ensures (high * 0x40 + low) / 0x40 == high && (high * 0x40 + low) % 0x40 == low
  {
  }

  lemma Quotients(c: nat)
    ensures c / 0x40 / 0x40 == c / 0x1000 && c / 0x1000 / 0x40 == c / 0x4_0000
  {
  }

  /** What is recognised as a character at the front is the encoding of a code point. */
  lemma CharIsEncoded(s: bytes)
    requires CharLen(s) > 0
    ensures CodePoint(s) >= 0 && IsScalar(CodePoint(s)) && s[..CharLen(s)] == EncodeChar(CodePoint(s))
  {
    var n := CharLen(s);
    if n == 1 {
      assert s[1..1] == [];
      assert s[..1] == [s[0]];
    } else if n == 2 {
      TwoOctets(s);
    } else if n == 3 {
      ThreeOctets(s);
    } else {
      FourOctets(s);
    }
  }

  lemma TwoOctets(s: bytes)
    requires CharLen(s) == 2
    ensures CodePoint(s) >= 0 && IsScalar(CodePoint(s)) && s[..2] == EncodeChar(CodePoint(s))
  {
    var lead: int, x: int := s[0], s[1];
    Unfold1(lead - 0xc0, s[1..2]);
    Sextet(lead - 0xc0, x - 0x80);
    assert s[..2] == [s[0], s[1]];
    hide Sextets;
  }

  lemma ThreeOctets(s: bytes)
    requires CharLen(s) == 3
    ensures CodePoint(s) >= 0 && IsScalar(CodePoint(s)) && s[..3] == EncodeChar(CodePoint(s))
  {
    var lead: int, x: int, y: int := s[0], s[1], s[2];
    Unfold2(lead - 0xe0, s[1..3]);
    Three(lead - 0xe0, x - 0x80, y - 0x80);
    assert s[..3] == [s[0], s[1], s[2]];
    hide Sextets;
  }

  lemma FourOctets(s: bytes)
    requires CharLen(s) == 4
    ensures CodePoint(s) >= 0 && IsScalar(CodePoint(s)) && s[..4] == EncodeChar(CodePoint(s))
  {
    var lead: int, x: int, y: int, z: int := s[0], s[1], s[2], s[3];
    Unfold3(lead - 0xf0, s[1..4]);
    Four(lead - 0xf0, x - 0x80, y - 0x80, z - 0x80);
    assert s[..4] == [s[0], s[1], s[2], s[3]];
    hide Sextets;
  }

  lemma Unfold1(lead: nat, r: bytes)
    requires |r| == 1
    ensures Sextets(lead, r) == lead * 0x40 + (r[0] as int - 0x80)
  {
    assert r[..0] == [];
  }

  lemma Unfold2(lead: nat, r: bytes)
    requires |r| == 2
    ensures Sextets(lead, r) == (lead * 0x40 + (r[0] as int - 0x80)) * 0x40 + (r[1] as int - 0x80)
  {
    Unfold1(lead, r[..1]);
  }

  lemma Unfold3(lead: nat, r: bytes)
    requires |r| == 3
    ensures Sextets(lead, r)
            == ((lead * 0x40 + (r[0] as int - 0x80)) * 0x40 + (r[1] as int - 0x80)) * 0x40 + (r[2] as int - 0x80)
  {
    Unfold2(lead, r[..2]);
  }

  lemma Three(a: nat, x: nat, y: nat)
    requires x < 0x40 && y < 0x40
    ensures var c := (a * 0x40 + x) * 0x40 + y;
            c / 0x1000 == a && c / 0x40 % 0x40 == x && c % 0x40 == y
  {
    var c := (a * 0x40 + x) * 0x40 + y;
    Sextet(a * 0x40 + x, y);
    Sextet(a, x);
    Quotients(c);
  }

  lemma Four(a: nat, x: nat, y: nat, z: nat)
    requires x < 0x40 && y < 0x40 && z < 0x40
    ensures var c := ((a * 0x40 + x) * 0x40 + y) * 0x40 + z;
            c / 0x4_0000 == a && c / 0x1000 % 0x40 == x && c / 0x40 % 0x40 == y && c % 0x40 == z
  {
    var c := ((a * 0x40 + x) * 0x40 + y) * 0x40 + z;
    Sextet((a * 0x40 + x) * 0x40 + y, z);
    Three(a, x, y);
    Quotients(c);
    Quotients(c / 0x40);
  }

  /** Every code point is recognised, whatever follows, and nothing else has its encoding in front. */
  lemma EncodedIsChar(c: nat, after: bytes)
    requires IsScalar(c)
    ensures CharLen(EncodeChar(c) + after) == |EncodeChar(c)|
  {
    Quotients(c);
  }

  predicate IsText(chars: seq<nat>) { forall i :: 0 <= i < |chars| ==> IsScalar(chars[i]) }

  function EncodeText(chars: seq<nat>): bytes
    requires IsText(chars)
  {
    if chars == [] then [] else EncodeChar(chars[0]) + EncodeText(chars[1..])
  }

  lemma EncodeCons(c: nat, rest: seq<nat>)
    requires IsScalar(c) && IsText(rest)
    ensures IsText([c] + rest) && EncodeText([c] + rest) == EncodeChar(c) + EncodeText(rest)
  {
    assert ([c] + rest)[1..] == rest;
    hide EncodeChar;
  }

  /** Every encoded text is accepted. */
  lemma {:induction false} EncodedTextIsUtf8(chars: seq<nat>)
    requires IsText(chars)
    ensures IsUtf8(EncodeText(chars))
  {
    if chars != [] {
      var first, rest := EncodeChar(chars[0]), EncodeText(chars[1..]);
      EncodedIsChar(chars[0], rest);
      EncodedTextIsUtf8(chars[1..]);
      hide CharLen, EncodeChar;
      assert (first + rest)[|first|..] == rest;
    }
  }

  lemma Utf8Front(s: bytes)
    requires IsUtf8(s) && s != []
    ensures CharLen(s) > 0 && IsUtf8(s[CharLen(s)..]) && s == s[..CharLen(s)] + s[CharLen(s)..]
  {
    hide CharLen;
  }

  /** Nothing else is: accepted octets are the encoding of a text. */
  lemma {:induction false} Utf8IsEncodedText(s: bytes) returns (chars: seq<nat>)
    requires IsUtf8(s)
    ensures IsText(chars) && EncodeText(chars) == s
    decreases |s|
  {
    if s == [] {
      chars := [];
    } else {
      hide *;
      Utf8Front(s);
      CharIsEncoded(s);
      var rest := Utf8IsEncodedText(s[CharLen(s)..]);
      EncodeCons(CodePoint(s), rest);
      chars := [CodePoint(s)] + rest;
    }
  }

  lemma CharLenAppend(a: bytes, b: bytes)
    requires CharLen(a) > 0
    ensures CharLen(a + b) == CharLen(a)
  {
  }

  lemma DropAppend(a: bytes, b: bytes, n: nat)
    requires n <= |a|
    ensures (a + b)[n..] == a[n..] + b
  {
  }

  /** Behind well-formed text, octets are well-formed exactly when the whole is. */
  lemma {:induction false} Utf8Append(a: bytes, b: bytes)
    requires IsUtf8(a)
    ensures IsUtf8(a + b) <==> IsUtf8(b)
    decreases |a|
  {
    if a == [] {
      assert a + b == b;
    } else {
      hide CharLen;
      var n := CharLen(a);
      CharLenAppend(a, b);
      DropAppend(a, b, n);
      Utf8Append(a[n..], b);
    }
  }

  lemma CharShape(s: bytes)
    requires CharLen(s) > 0
    ensures forall k :: 1 <= k < CharLen(s) ==> Continuation(s[k])
  {
  }

  lemma CharLenCut(s: bytes, i: nat)
    requires CharLen(s) <= i <= |s| && CharLen(s) > 0
    ensures CharLen(s[..i]) == CharLen(s)
  {
  }

  /** Well-formed text may be cut in front of any octet that is not a continuation. */
  lemma {:induction false} Utf8Cut(s: bytes, i: nat)
    requires IsUtf8(s) && i <= |s| && (i < |s| ==> !Continuation(s[i]))
    ensures IsUtf8(s[..i]) && IsUtf8(s[i..])
    decreases |s|
  {
    if i == 0 {
      assert s[0..] == s;
    } else {
      var n := CharLen(s);
      CharShape(s);
      CharLenCut(s, i);
      hide CharLen;
      assert s[n..][..i - n] == s[..i][n..];
      DropTwice(s, n, i - n);
      Utf8Cut(s[n..], i - n);
    }
  }

  lemma Utf8Ascii(b: byte)
    requires b < 128
    ensures IsUtf8([b])
  {
    assert [b][1..] == [];
  }

  function LowerByte(b: byte): byte { if 65 <= b <= 90 then b + 32 else b }

  /** `to_ascii_lowercase`. */
  function Lower(s: bytes): (r: bytes)
    ensures |r| == |s|
    ensures forall i :: 0 <= i < |s| ==> r[i] == LowerByte(s[i])
  {
    seq(|s|, i requires 0 <= i < |s| => LowerByte(s[i]))
  }

  /** `eq_ignore_ascii_case`. */
  predicate EqIgnoreCase(a: bytes, b: bytes) { Lower(a) == Lower(b) }

  /** The same letter in either case, or the same octet. */
  predicate SameLetter(x: byte, y: byte) {
    x == y || (65 <= x <= 90 && y == x + 32) || (65 <= y <= 90 && x == y + 32)
  }

  /** Ignoring case is comparing letter by letter. */
  lemma EqIgnoreCaseIff(a: bytes, b: bytes)
    ensures EqIgnoreCase(a, b) <==> |a| == |b| && forall i :: 0 <= i < |a| ==> SameLetter(a[i], b[i])
  {
    if EqIgnoreCase(a, b) {
      forall i | 0 <= i < |a|
        ensures SameLetter(a[i], b[i])
      {
        assert Lower(a)[i] == Lower(b)[i];
      }
    }
  }

  /** Lower-casing changes letters only, and leaves none in upper case. */
  lemma LowerMeaning(s: bytes)
    ensures |Lower(s)| == |s| && EqIgnoreCase(Lower(s), s)
    ensures forall i :: 0 <= i < |s| ==> SameLetter(Lower(s)[i], s[i]) && !(65 <= Lower(s)[i] <= 90)
  {
    LowerIdempotent(s);
  }

  lemma LowerIdempotent(s: bytes)
    ensures Lower(Lower(s)) == Lower(s)
  {
  }

  lemma LowerAppend(a: bytes, b: bytes)
    ensures Lower(a + b) == Lower(a) + Lower(b)
  {
  }

  predicate EndsWith(s: bytes, suffix: bytes) {
    |suffix| <= |s| && s[|s| - |suffix|..] == suffix
  }

  predicate OccursAt(s: bytes, needle: bytes, i: nat) {
    i + |needle| <= |s| && s[i..i + |needle|] == needle
  }

  /** `str::contains`. */
  predicate Contains(s: bytes, needle: bytes) {
    exists i :: 0 <= i <= |s| && OccursAt(s, needle, i)
  }

  /** `trim_start_matches('.')`. */
  function TrimStartDots(s: bytes): bytes {
    if s != [] && s[0] == 46 then TrimStartDots(s[1..]) else s
  }

  /** Exactly the dots in front go. */
  lemma {:induction false} TrimStartDotsIs(s: bytes, n: nat)
    requires n <= |s| && (forall k :: 0 <= k < n ==> s[k] == 46) && (n < |s| ==> s[n] != 46)
    ensures TrimStartDots(s) == s[n..]
    decreases n
  {
    if n > 0 {
      TrimStartDotsIs(s[1..], n - 1);
      DropTwice(s, 1, n - 1);
    } else {
      assert s[0..] == s;
    }
  }

  lemma DropTwice(s: bytes, m: nat, n: nat)
    requires m + n <= |s|
    ensures s[m..][n..] == s[m + n..]
  {
  }

  lemma SliceOfSlice(s: bytes, lo: nat, hi: nat, m: nat, n: nat)
    requires lo <= hi <= |s| && m <= n <= hi - lo
    ensures s[lo..hi][m..n] == s[lo + m..lo + n]
  {
    var t := s[lo..hi];
    forall i | 0 <= i < n - m
      ensures t[m..n][i] == s[lo + m..lo + n][i]
    {
      assert t[m..n][i] == t[m + i] == s[lo + (m + i)];
    }
  }

  lemma EndsWithTransitive(a: bytes, b: bytes, c: bytes)
    requires EndsWith(a, b) && EndsWith(b, c)
    ensures EndsWith(a, c)
  {
    DropTwice(a, |a| - |b|, |b| - |c|);
  }

  lemma ContainsTransitive(a: bytes, b: bytes, c: bytes)
    requires Contains(a, b) && Contains(b, c)
    ensures Contains(a, c)
  {
    var i :| 0 <= i <= |a| && OccursAt(a, b, i);
    var j :| 0 <= j <= |b| && OccursAt(b, c, j);
    SliceOfSlice(a, i, i + |b|, j, j + |c|);
    assert OccursAt(a, c, i + j);
  }

  lemma SuffixOccurs(s: bytes, suffix: bytes)
    requires EndsWith(s, suffix)
    ensures Contains(s, suffix)
  {
    assert s[|s| - |suffix|..|s| - |suffix| + |suffix|] == s[|s| - |suffix|..];
    assert OccursAt(s, suffix, |s| - |suffix|);
  }
}
