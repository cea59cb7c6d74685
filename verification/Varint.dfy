/** Base-128 varints of the gRPC hunk codec (crates/keli-net-core/src/grpc.rs). */
module Varint {
  import opened Wrappers
  import opened Arith
  import opened Bitwise
  import opened Bytes

  const U64_RANGE: nat := 0x1_0000_0000_0000_0000
  type u64 = n: int | 0 <= n < 0x1_0000_0000_0000_0000

  // ---------------------------------------------------------------------
  // Reference: the "Base 128 Varints" rule of the Protocol Buffers encoding
  // guide. A varint is a run of octets whose top bit is set on all but the
  // last; the low seven bits of the octets are base-128 digits, least
  // significant first. Ten octets hold 64 bits.
  // ---------------------------------------------------------------------

  predicate IsVarint(octets: bytes) {
    && 1 <= |octets| <= 10
    && octets[|octets| - 1] < 128
    && forall i :: 0 <= i < |octets| - 1 ==> octets[i] >= 128
  }

  function Groups(octets: bytes): nat {
    if octets == [] then 0 else octets[0] % 128 + 128 * Groups(octets[1..])
  }

  /** The value of a varint, reduced to 64 bits. */
  function VarintValue(octets: bytes): u64 {
    Groups(octets) % U64_RANGE
  }

  lemma Pow2Seven(n: nat)
    ensures Pow2(n + 7) == 128 * Pow2(n)
  {
    Pow2Byte();
    assert Pow2(8) == 2 * Pow2(7);
    Pow2Add(n, 7);
  }

  /** A base-128 digit moved `shift` bits to the left. */
  function Shifted(digit: nat, shift: nat): nat {
    digit * Pow2(shift)
  }

  lemma Pow2Sixty3()
    ensures Pow2(63) == 0x8000_0000_0000_0000
  {
    Pow2Words();
    assert Pow2(64) == 2 * Pow2(63);
  }

  lemma {:induction false} GroupsBound(octets: bytes)
    ensures Groups(octets) < Pow2(7 * |octets|)
  {
    if octets != [] {
      GroupsBound(octets[1..]);
      Pow2Seven(7 * (|octets| - 1));
    }
  }

  lemma {:induction false} GroupsSnoc(octets: bytes, b: byte)
    ensures Groups(octets + [b]) == Groups(octets) + Shifted(b % 128, 7 * |octets|)
  {
    if octets == [] {
      assert octets + [b] == [b];
      assert Groups([b]) == b % 128 + 128 * Groups([]);
    } else {
      assert (octets + [b])[1..] == octets[1..] + [b];
      GroupsSnoc(octets[1..], b);
      Pow2Seven(7 * (|octets| - 1));
      var p := Pow2(7 * (|octets| - 1));
      assert Pow2(7 * |octets|) == 128 * p;
      assert 128 * ((b % 128) * p) == (b % 128) * (128 * p);
    }
  }

  // ---------------------------------------------------------------------
  // Encoder
  // ---------------------------------------------------------------------

  /** What `encode_varint` appends. */
  function VarintBytes(value: nat): (out: bytes)
    ensures out != []
    decreases value
  {
    if value < 128 then [value] else [value % 128 + 128] + VarintBytes(value / 128)
  }

  /** `encode_varint`: pushes the groups onto `output` while shifting `value` right. */
  method EncodeVarint(value: u64, output: bytes) returns (extended: bytes)
    ensures extended == output + VarintBytes(value)
  {
    var rest: nat := value;
    extended := output;
    while rest >= 0x80
      invariant extended + VarintBytes(rest) == output + VarintBytes(value)
    {
      OctetBits(rest % 256);
      LowOctet(rest);
      ghost var before, b := extended, rest % 128 + 128;
      extended := extended + [Or(rest % 256, 0x80)];
      assert before + ([b] + VarintBytes(rest / 128)) == extended + VarintBytes(rest / 128);
      rest := rest / 128;
    }
    extended := extended + [rest];
  }

  /** The bit operations on one octet, as arithmetic. */
  lemma OctetBits(b: nat)
    requires b < 256
    ensures And(b, 0x7f) == b % 128
    ensures And(b, 0x80) == 0 <==> b < 128
    ensures Or(b, 0x80) == b % 128 + 128
  {
    Pow2Byte();
    assert Pow2(8) == 2 * Pow2(7);
    AndLowBits(b, 7);
    AndTopBit(b, 7);
    OrTopBit(b, 7);
    hide Pow2, And, Or;
  }

  lemma LowOctet(value: nat)
    ensures value % 256 % 128 == value % 128
  {
  }

  /** `varint_len` counts exactly the octets `encode_varint` writes. */
  method VarintLen(value: u64) returns (len: nat)
    ensures len == |VarintBytes(value)|
  {
    var rest: nat := value;
    len := 1;
    while rest >= 0x80
      invariant len + |VarintBytes(rest)| == |VarintBytes(value)| + 1
    {
      len := len + 1;
      rest := rest / 128;
    }
  }

  lemma {:induction false} VarintBytesDigits(value: nat)
    ensures Groups(VarintBytes(value)) == value
    ensures var out := VarintBytes(value);
            out[|out| - 1] < 128 && forall i :: 0 <= i < |out| - 1 ==> out[i] >= 128
    decreases value
  {
    if value < 128 {
      assert Groups([value]) == value % 128 + 128 * Groups([]);
    } else {
      VarintBytesDigits(value / 128);
      var out, tail := VarintBytes(value), VarintBytes(value / 128);
      assert out[1..] == tail;
      forall i | 0 <= i < |out| - 1
        ensures out[i] >= 128
      {
        if i > 0 { assert out[i] == tail[i - 1]; }
      }
    }
  }

  /** The encoding has at most `digits` octets exactly when the value has at most that many digits. */
  lemma {:induction false} VarintBytesLength(value: nat, digits: nat)
    requires digits >= 1
    ensures |VarintBytes(value)| <= digits <==> value < Pow2(7 * digits)
    decreases digits
  {
    Pow2Seven(7 * (digits - 1));
    assert Pow2(7 * digits) == 128 * Pow2(7 * (digits - 1));
    if digits == 1 {
      assert Pow2(0) == 1;
    } else if value < 128 {
      VarintBytesLength(value, digits - 1);
      Pow2Monotone(7, 7 * digits);
      Pow2Seven(0);
    } else {
      VarintBytesLength(value / 128, digits - 1);
    }
  }

  /** Every u64 is written as a varint of one to ten octets that denotes it. */
  lemma EncodedVarintIsVarint(value: u64)
    ensures IsVarint(VarintBytes(value))
    ensures VarintValue(VarintBytes(value)) == value
  {
    VarintBytesDigits(value);
    VarintBytesLength(value, 10);
    hide Pow2, VarintBytes, Groups;
    Pow2Sixty3();
    Pow2Seven(63);
    ModOfMultiple(0, value);
  }

  /** No varint with the same digits value is shorter than the one `encode_varint` writes. */
  lemma EncodedVarintIsShortest(value: u64, other: bytes)
    requires IsVarint(other) && Groups(other) == value
    ensures |VarintBytes(value)| <= |other|
  {
    GroupsBound(other);
    VarintBytesLength(value, |other|);
  }

  // ---------------------------------------------------------------------
  // Decoder
  // ---------------------------------------------------------------------

  /** The index just after the first octet below 128 among the next `budget` octets. */
  function VarintEnd(input: bytes, cursor: nat, budget: nat): (end: Option<nat>)
    requires cursor <= |input|
    ensures end.Some? ==> cursor < end.value <= |input| && end.value <= cursor + budget
    decreases budget
  {
    if cursor == |input| || budget == 0 then None
    else if input[cursor] < 128 then Some(cursor + 1)
    else VarintEnd(input, cursor + 1, budget - 1)
  }

  /** What `decode_varint` computes: the value and the advanced cursor. */
  function DecodeVarint(input: bytes, cursor: nat): (r: Option<(u64, nat)>)
    requires cursor <= |input|
    ensures r.Some? ==> cursor < r.value.1 <= |input|
  {
    match VarintEnd(input, cursor, 10)
    case None => None
    case Some(end) => Some((VarintValue(input[cursor..end]), end))
  }

  /** `digit << shift` on 64 bits. */
  function ShiftedWord(digit: nat, shift: nat): nat { Shifted(digit, shift) % U64_RANGE }

  /** `decode_varint`, loop and all. */
  method DecodeVarintLoop(input: bytes, start: nat) returns (result: Option<u64>, cursor: nat)
    requires start <= |input|
    ensures result.Some? == DecodeVarint(input, start).Some?
    ensures result.Some? ==> DecodeVarint(input, start) == Some((result.value, cursor))
    ensures start <= cursor <= |input|
  {
    hide Pow2, Groups, ShiftedWord, And, Or;
    cursor := start;
    var value: nat := 0;
    var shift: nat := 0;
    NoDigits(input[start..cursor]);
    while cursor < |input| && shift < 64
      invariant start <= cursor <= |input|
      invariant shift == 7 * (cursor - start) <= 70
      invariant shift < 64 ==> value == Groups(input[start..cursor]) < Pow2(shift)
      invariant VarintEnd(input, start, 10) == VarintEnd(input, cursor, 10 - (cursor - start))
    {
      var b := input[cursor];
      OctetBits(b);
      AddDigit(input, start, cursor, value);
      cursor := cursor + 1;
      value := Or(value, ShiftedWord(And(b, 0x7f), shift));
      if And(b, 0x80) == 0 {
        return Some(value), cursor;
      }
      shift := shift + 7;
    }
    result := None;
  }

  lemma NoDigits(none: bytes)
    requires none == []
    ensures Groups(none) == 0 && Pow2(0) == 1
  {
  }

  /** One round of the decoder's loop. */
  lemma AddDigit(input: bytes, start: nat, cursor: nat, value: nat)
    requires start <= cursor < |input| && cursor - start <= 9
    requires value == Groups(input[start..cursor]) < Pow2(7 * (cursor - start))
    ensures var next := Or(value, ShiftedWord(input[cursor] % 128, 7 * (cursor - start)));
            && next == VarintValue(input[start..cursor + 1])
            && (cursor - start < 9 ==>
                  next == Groups(input[start..cursor + 1]) < Pow2(7 * (cursor - start) + 7))
  {
    hide *;
    var seen, b := input[start..cursor], input[cursor];
    assert input[start..cursor + 1] == seen + [b];
    AddOctet(seen, b, value);
  }

  lemma AddOctet(seen: bytes, b: byte, value: nat)
    requires |seen| <= 9 && value == Groups(seen) < Pow2(7 * |seen|)
    ensures var next := Or(value, ShiftedWord(b % 128, 7 * |seen|));
            && next == VarintValue(seen + [b])
            && (|seen| < 9 ==> next == Groups(seen + [b]) < Pow2(7 * |seen| + 7))
  {
    var shift := 7 * |seen|;
    GroupsSnoc(seen, b);
    GroupsBound(seen + [b]);
    hide Pow2, Groups, Shifted, Or;
    DigitAbove(b % 128, shift, value);
    DigitFits(b % 128, shift, value);
    if shift < 63 { ModOfMultiple(0, value + Shifted(b % 128, shift)); }
  }

  /** The shifted digit has no bits below `shift` and `value` has no others, so OR adds. */
  lemma DigitAbove(digit: nat, shift: nat, value: nat)
    requires digit < 128 && shift < 64 && shift % 7 == 0 && value < Pow2(shift)
    ensures Or(value, ShiftedWord(digit, shift)) == value + ShiftedWord(digit, shift)
  {
    Pow2Sixty3();
    hide Pow2, Or;
    if shift < 63 {
      Pow2Monotone(shift + 7, 63);
      Pow2Seven(shift);
      LowDigit(digit, Pow2(shift), 0);
      ModOfMultiple(0, digit * Pow2(shift));
      OrDisjoint(value, digit, shift);
    } else {
      TopDigitWord(digit);
      OrDisjoint(value, digit % 2, 63);
    }
  }

  lemma TopDigitWord(digit: nat)
    requires digit < 128
    ensures digit * 0x8000_0000_0000_0000 % U64_RANGE == digit % 2 * 0x8000_0000_0000_0000
  {
    var q, r := digit / 2, digit % 2;
    assert digit * 0x8000_0000_0000_0000 == q * U64_RANGE + r * 0x8000_0000_0000_0000;
    ModOfMultiple(q, r * 0x8000_0000_0000_0000);
  }

  lemma ModOfMultiple(q: nat, r: nat)
    requires r < U64_RANGE
    ensures (q * U64_RANGE + r) % U64_RANGE == r
  {
  }

  lemma ScaledDigit(digit: nat, p: nat)
    requires digit < 128
    ensures digit * p <= 127 * p
  {
  }

  lemma LowDigit(digit: nat, p: nat, value: nat)
    requires digit < 128 && 128 * p <= 0x8000_0000_0000_0000 && value < p
    ensures value + digit * p < U64_RANGE
    ensures value + digit * p % U64_RANGE == (value + digit * p) % U64_RANGE
  {
    ScaledDigit(digit, p);
    var term := digit * p;
    ModOfMultiple(0, term);
    ModOfMultiple(0, value + term);
  }

  lemma TopDigit(digit: nat, value: nat)
    requires digit < 128 && value < 0x8000_0000_0000_0000
    ensures value + digit * 0x8000_0000_0000_0000 % U64_RANGE
            == (value + digit * 0x8000_0000_0000_0000) % U64_RANGE
  {
    var q, r := digit / 2, digit % 2;
    assert digit * 0x8000_0000_0000_0000 == q * U64_RANGE + r * 0x8000_0000_0000_0000;
    ModOfMultiple(q, r * 0x8000_0000_0000_0000);
    ModOfMultiple(q, value + r * 0x8000_0000_0000_0000);
  }

  /** Adding a truncated digit on top of `value` is adding the digit and truncating. */
  lemma DigitFits(digit: nat, shift: nat, value: nat)
    requires digit < 128 && shift < 64 && shift % 7 == 0 && value < Pow2(shift)
    ensures value + Shifted(digit, shift) % U64_RANGE == (value + Shifted(digit, shift)) % U64_RANGE
    ensures shift < 63 ==> value + Shifted(digit, shift) < U64_RANGE
  {
    Pow2Sixty3();
    hide Pow2;
    if shift < 63 {
      Pow2Monotone(shift + 7, 63);
      Pow2Seven(shift);
      LowDigit(digit, Pow2(shift), value);
    } else {
      TopDigit(digit, value);
    }
  }

  lemma {:induction false} VarintEndIff(input: bytes, cursor: nat, budget: nat, end: nat)
    requires cursor <= |input|
    ensures VarintEnd(input, cursor, budget) == Some(end)
            <==> cursor < end <= |input| && end - cursor <= budget && input[end - 1] < 128
                 && forall i :: cursor <= i < end - 1 ==> input[i] >= 128
    decreases budget
  {
    if cursor < |input| && budget > 0 && input[cursor] >= 128 {
      VarintEndIff(input, cursor + 1, budget - 1, end);
    }
  }

  /**
   * The decoder succeeds exactly on a varint starting at the cursor, whatever follows it,
   * and returns its value and the position just after it.
   */
  lemma DecodeVarintIff(input: bytes, cursor: nat, value: u64, end: nat)
    requires cursor <= |input|
    ensures DecodeVarint(input, cursor) == Some((value, end))
            <==> cursor < end <= |input| && IsVarint(input[cursor..end])
                 && value == VarintValue(input[cursor..end])
  {
    VarintEndIff(input, cursor, 10, end);
    if cursor < end <= |input| {
      var v := input[cursor..end];
      assert forall i :: cursor <= i < end ==> input[i] == v[i - cursor];
      assert (forall i :: cursor <= i < end - 1 ==> input[i] >= 128)
          == (forall i :: 0 <= i < |v| - 1 ==> v[i] >= 128) by {
        if forall i :: cursor <= i < end - 1 ==> input[i] >= 128 {
          assert forall i :: 0 <= i < |v| - 1 ==> v[i] == input[cursor + i];
        }
      }
    }
  }

  /** Any varint decodes to its value at any offset, with any following octets. */
  lemma DecodeVarintAt(before: bytes, varint: bytes, after: bytes)
    requires IsVarint(varint)
    ensures DecodeVarint(before + varint + after, |before|)
            == Some((VarintValue(varint), |before| + |varint|))
  {
    var input, end := before + varint + after, |before| + |varint|;
    assert input[|before|..end] == varint;
    DecodeVarintIff(input, |before|, VarintValue(varint), end);
  }

  /** Round trip: `decode_varint` recovers what `encode_varint` wrote and consumes just that. */
  lemma VarintRoundTrip(before: bytes, value: u64, after: bytes)
    ensures DecodeVarint(before + VarintBytes(value) + after, |before|)
            == Some((value, |before| + |VarintBytes(value)|))
    ensures 1 <= |VarintBytes(value)| <= 10
  {
    EncodedVarintIsVarint(value);
    hide DecodeVarint, VarintBytes, VarintValue;
    DecodeVarintAt(before, VarintBytes(value), after);
  }
}
