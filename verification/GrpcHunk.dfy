/**
 * The gRPC hunk codec and the receiving task (crates/keli-net-core/src/grpc.rs): a payload is
 * wrapped in a protobuf message with one length-delimited field, the message in a gRPC
 * length-prefixed frame, and the frames are cut out of an arbitrarily chunked byte stream.
 */
module GrpcHunk {
  import opened Wrappers
  import opened Bytes
  import opened Varint
  import opened ByteStream

  const MAX_GRPC_MESSAGE_SIZE: nat := 16 * 1024 * 1024
  const U32_RANGE: nat := 0x1_0000_0000

  datatype GrpcError =
    | InvalidVarint
    | TruncatedData
    | TruncatedField
    | UnsupportedWireType
    | CompressedMessage
    | MessageTooLarge
    | Transport

  // ---------------------------------------------------------------------
  // Hunk messages
  // ---------------------------------------------------------------------

  /** `encode_hunk_message`: field 1, wire type 2, length, payload. */
  function HunkMessage(payload: bytes): bytes {
    [0x0a] + VarintBytes(|payload|) + payload
  }

  /** `encode_hunk_message`. A slice length is a usize, hence the bound. */
  method EncodeHunkMessage(payload: bytes) returns (output: bytes)
    requires |payload| < U64_RANGE
    ensures output == HunkMessage(payload)
  {
    output := [0x0a];
    output := EncodeVarint(|payload|, output);
    output := output + payload;
  }

  /** `decode_hunk_message` from a cursor on, with the data found so far. */
  function DecodeFields(message: bytes, cursor: nat, data: Option<bytes>): Result<bytes, GrpcError>
    requires cursor <= |message|
    decreases |message| - cursor
  {
    if cursor == |message| then Ok(if data.Some? then data.value else [])
    else match DecodeVarint(message, cursor)
      case None => Err(InvalidVarint)
      case Some((key, afterKey)) =>
        var field, wire := key / 8, key % 8;
        if wire != 0 && wire != 2 then Err(UnsupportedWireType)
        else match DecodeVarint(message, afterKey)
          case None => Err(InvalidVarint)
          case Some((len, start)) =>
            if wire == 0 then DecodeFields(message, start, data)
            else if start + len > |message| then Err(if field == 1 then TruncatedData else TruncatedField)
            else DecodeFields(message, start + len, if field == 1 then Some(message[start..start + len]) else data)
  }

  function DecodeHunk(message: bytes): Result<bytes, GrpcError> {
    DecodeFields(message, 0, None)
  }

  /** `decode_hunk_message`: the cursor strictly advances and stays in bounds on every input. */
  method DecodeHunkMessage(message: bytes) returns (result: Result<bytes, GrpcError>)
    ensures result == DecodeHunk(message)
  {
    hide DecodeVarint;
    var cursor: nat := 0;
    var data: Option<bytes> := None;
    while cursor < |message|
      invariant cursor <= |message|
      invariant DecodeFields(message, cursor, data) == DecodeHunk(message)
      decreases |message| - cursor
    {
      var key, afterKey := DecodeVarintLoop(message, cursor);
      if key.None? { return Err(InvalidVarint); }
      var field, wire := key.value / 8, key.value % 8;
      if wire == 2 {
        var len, start := DecodeVarintLoop(message, afterKey);
        if len.None? { return Err(InvalidVarint); }
        if start + len.value > |message| {
          return Err(if field == 1 then TruncatedData else TruncatedField);
        }
        if field == 1 { data := Some(message[start..start + len.value]); }
        cursor := start + len.value;
      } else if wire == 0 {
        var skipped, next := DecodeVarintLoop(message, afterKey);
        if skipped.None? { return Err(InvalidVarint); }
        cursor := next;
      } else {
        return Err(UnsupportedWireType);
      }
    }
    result := Ok(if data.Some? then data.value else []);
  }

  // Reference: a protobuf message as a list of fields, each with the octets of its
  // varints as they stand on the wire, so that non-minimal varints are covered too.

  datatype Field =
    | Scalar(key: bytes, value: bytes)
    | Delimited(key: bytes, len: bytes, payload: bytes)

  predicate ValidField(f: Field) {
    match f
    case Scalar(key, value) => IsVarint(key) && VarintValue(key) % 8 == 0 && IsVarint(value)
    case Delimited(key, len, payload) =>
      IsVarint(key) && VarintValue(key) % 8 == 2 && IsVarint(len) && VarintValue(len) == |payload|
  }

  predicate ValidFields(fields: seq<Field>) {
    forall i :: 0 <= i < |fields| ==> ValidField(fields[i])
  }

  function FieldBytes(f: Field): bytes {
    match f
    case Scalar(key, value) => key + value
    case Delimited(key, len, payload) => key + len + payload
  }

  function Serialise(fields: seq<Field>): bytes {
    if fields == [] then [] else FieldBytes(fields[0]) + Serialise(fields[1..])
  }

  /** A length-delimited field with number 1. */
  predicate IsData(f: Field) {
    f.Delimited? && VarintValue(f.key) / 8 == 1
  }

  /** The payload of the last data field, if there is one. */
  function LastData(fields: seq<Field>): Option<bytes> {
    if fields == [] then None
    else
      var n := |fields| - 1;
      if IsData(fields[n]) then Some(fields[n].payload) else LastData(fields[..n])
  }

  function OrElse(a: Option<bytes>, b: Option<bytes>): Option<bytes> {
    if a.Some? then a else b
  }

  lemma {:induction false} LastDataCons(f: Field, fields: seq<Field>)
    ensures LastData([f] + fields) == OrElse(LastData(fields), if IsData(f) then Some(f.payload) else None)
    decreases |fields|
  {
    var all := [f] + fields;
    if fields != [] {
      var n := |fields| - 1;
      assert all[..|all| - 1] == [f] + fields[..n];
      LastDataCons(f, fields[..n]);
    } else {
      assert all == [f] && all[..0] == [];
    }
  }

  function PayloadOr(data: Option<bytes>): bytes {
    if data.Some? then data.value else []
  }

  /** The data found so far, once a field has been stepped over. */
  function Update(f: Field, data: Option<bytes>): Option<bytes> {
    if IsData(f) then Some(f.payload) else data
  }

  lemma LastDataStep(f: Field, tail: seq<Field>, data: Option<bytes>)
    ensures OrElse(LastData([f] + tail), data) == OrElse(LastData(tail), Update(f, data))
  {
    LastDataCons(f, tail);
  }

  lemma DecodeNothing(before: bytes, data: Option<bytes>)
    ensures DecodeFields(before + Serialise([]), |before|, data) == Ok(PayloadOr(OrElse(LastData([]), data)))
  {
    assert before + Serialise([]) == before;
  }

  lemma SerialiseCons(fields: seq<Field>)
    requires fields != [] && ValidFields(fields)
    ensures Serialise(fields) == FieldBytes(fields[0]) + Serialise(fields[1..])
    ensures ValidField(fields[0]) && ValidFields(fields[1..])
    ensures fields == [fields[0]] + fields[1..]
  {
  }

  lemma {:induction false} DecodeSerialised(before: bytes, fields: seq<Field>, data: Option<bytes>)
    requires ValidFields(fields)
    ensures DecodeFields(before + Serialise(fields), |before|, data)
            == Ok(PayloadOr(OrElse(LastData(fields), data)))
    decreases |fields|
  {
    hide *;
    if fields == [] {
      DecodeNothing(before, data);
    } else {
      var f, tail := fields[0], fields[1..];
      SerialiseCons(fields);
      LastDataStep(f, tail, data);
      ConcatAssoc(before, FieldBytes(f), Serialise(tail));
      DecodeFirstField(before, f, Serialise(tail), data);
      DecodeSerialised(before + FieldBytes(f), tail, Update(f, data));
    }
  }

  /** The decoder steps over exactly one field, keeping its payload if it is a data field. */
  lemma DecodeFirstField(before: bytes, f: Field, rest: bytes, data: Option<bytes>)
    requires ValidField(f)
    ensures var message := before + FieldBytes(f) + rest;
            DecodeFields(message, |before|, data)
            == DecodeFields(message, |before| + |FieldBytes(f)|, Update(f, data))
  {
    if f.Scalar? { DecodeScalar(before, f, rest, data); } else { DecodeDelimited(before, f, rest, data); }
  }

  lemma DecodeScalar(before: bytes, f: Field, rest: bytes, data: Option<bytes>)
    requires ValidField(f) && f.Scalar?
    ensures var message := before + FieldBytes(f) + rest;
            DecodeFields(message, |before|, data) == DecodeFields(message, |before| + |FieldBytes(f)|, data)
  {
    hide DecodeVarint, IsVarint, VarintValue;
    var message, key, value := before + FieldBytes(f) + rest, f.key, f.value;
    assert message == before + key + (value + rest);
    DecodeVarintAt(before, key, value + rest);
    assert message == (before + key) + value + rest;
    DecodeVarintAt(before + key, value, rest);
  }

  lemma DecodeDelimited(before: bytes, f: Field, rest: bytes, data: Option<bytes>)
    requires ValidField(f) && f.Delimited?
    ensures var message := before + FieldBytes(f) + rest;
            DecodeFields(message, |before|, data)
            == DecodeFields(message, |before| + |FieldBytes(f)|, Update(f, data))
  {
    hide DecodeVarint, IsVarint, VarintValue, DecodeFields;
    var message, key, len, payload := before + FieldBytes(f) + rest, f.key, f.len, f.payload;
    DelimitedLayout(before, key, len, payload, rest);
    DecodeVarintAt(before, key, len + payload + rest);
    DecodeVarintAt(before + key, len, payload + rest);
    var afterKey := |before| + |key|;
    var start := afterKey + |len|;
    StepDelimited(message, |before|, data, VarintValue(key), afterKey, |payload|, start);
  }

  lemma DelimitedLayout(before: bytes, key: bytes, len: bytes, payload: bytes, rest: bytes)
    ensures var message := before + (key + len + payload) + rest;
            var start := |before| + |key| + |len|;
            && message == before + key + (len + payload + rest)
            && message == (before + key) + len + (payload + rest)
            && message[start..start + |payload|] == payload
  {
  }

  lemma StepDelimited(message: bytes, cursor: nat, data: Option<bytes>, key: u64, afterKey: nat, len: u64, start: nat)
    requires cursor < afterKey <= start <= start + len <= |message|
    requires DecodeVarint(message, cursor) == Some((key, afterKey)) && key % 8 == 2
    requires DecodeVarint(message, afterKey) == Some((len, start))
    ensures DecodeFields(message, cursor, data)
            == DecodeFields(message, start + len, if key / 8 == 1 then Some(message[start..start + len]) else data)
  {
    hide DecodeVarint;
  }

  /** The fields the decoder walks over when it succeeds. */
  ghost function ParsedFields(message: bytes, cursor: nat, data: Option<bytes>): (fields: seq<Field>)
    requires cursor <= |message| && DecodeFields(message, cursor, data).Ok?
    decreases |message| - cursor
  {
    if cursor == |message| then []
    else
      var (key, afterKey) := DecodeVarint(message, cursor).value;
      var (len, start) := DecodeVarint(message, afterKey).value;
      if key % 8 == 0 then
        [Scalar(message[cursor..afterKey], message[afterKey..start])] + ParsedFields(message, start, data)
      else
        var payload := message[start..start + len];
        [Delimited(message[cursor..afterKey], message[afterKey..start], payload)]
        + ParsedFields(message, start + len, if key / 8 == 1 then Some(payload) else data)
  }

  lemma {:induction false} ParsedFieldsSerialise(message: bytes, cursor: nat, data: Option<bytes>)
    requires cursor <= |message| && DecodeFields(message, cursor, data).Ok?
    ensures var fields := ParsedFields(message, cursor, data);
            ValidFields(fields) && Serialise(fields) == message[cursor..]
    decreases |message| - cursor
  {
    hide DecodeVarint, IsVarint, VarintValue, ValidField, FieldBytes;
    if cursor < |message| {
      var (key, afterKey) := DecodeVarint(message, cursor).value;
      var (len, start) := DecodeVarint(message, afterKey).value;
      var fields := ParsedFields(message, cursor, data);
      if key % 8 == 0 {
        ParsedFieldsSerialise(message, start, data);
        assert fields[1..] == ParsedFields(message, start, data);
        ParsedScalar(message, cursor, key, afterKey, len, start);
      } else {
        var payload := message[start..start + len];
        var next := if key / 8 == 1 then Some(payload) else data;
        ParsedFieldsSerialise(message, start + len, next);
        assert fields[1..] == ParsedFields(message, start + len, next);
        ParsedDelimited(message, cursor, key, afterKey, len, start);
      }
    }
  }

  lemma ParsedScalar(message: bytes, cursor: nat, key: u64, afterKey: nat, value: u64, start: nat)
    requires cursor < afterKey < start <= |message|
    requires DecodeVarint(message, cursor) == Some((key, afterKey)) && key % 8 == 0
    requires DecodeVarint(message, afterKey) == Some((value, start))
    ensures var f := Scalar(message[cursor..afterKey], message[afterKey..start]);
            ValidField(f) && message[cursor..] == FieldBytes(f) + message[start..]
  {
    hide DecodeVarint, IsVarint, VarintValue;
    DecodeVarintIff(message, cursor, key, afterKey);
    DecodeVarintIff(message, afterKey, value, start);
    SplitThree(message, cursor, afterKey, start, start);
  }

  lemma ParsedDelimited(message: bytes, cursor: nat, key: u64, afterKey: nat, len: u64, start: nat)
    requires cursor < afterKey < start <= start + len <= |message|
    requires DecodeVarint(message, cursor) == Some((key, afterKey)) && key % 8 == 2
    requires DecodeVarint(message, afterKey) == Some((len, start))
    ensures var f := Delimited(message[cursor..afterKey], message[afterKey..start], message[start..start + len]);
            ValidField(f) && message[cursor..] == FieldBytes(f) + message[start + len..]
  {
    hide DecodeVarint, IsVarint, VarintValue;
    DecodeVarintIff(message, cursor, key, afterKey);
    DecodeVarintIff(message, afterKey, len, start);
    SplitThree(message, cursor, afterKey, start, start + len);
  }

  lemma SplitThree(s: bytes, a: nat, b: nat, c: nat, d: nat)
    requires a <= b <= c <= d <= |s|
    ensures s[a..] == s[a..b] + s[b..c] + s[c..d] + s[d..]
  {
  }

  ghost predicate HoldsPayload(message: bytes, fields: seq<Field>, payload: bytes) {
    && ValidFields(fields)
    && Serialise(fields) == message
    && payload == PayloadOr(LastData(fields))
  }

  /** Any list of wire-type 0 and 2 fields decodes to the payload of its last data field. */
  lemma DecodeHunkOfFields(fields: seq<Field>)
    requires ValidFields(fields)
    ensures DecodeHunk(Serialise(fields))
            == Ok(PayloadOr(LastData(fields)))
  {
    assert [] + Serialise(fields) == Serialise(fields);
    DecodeSerialised([], fields, None);
  }

  /** No varint stands at the front. */
  predicate NoVarint(s: bytes) { forall n :: 0 <= n <= |s| ==> !IsVarint(s[..n]) }

  /** Wherever decoding comes to `rest`, it ends there with this error. */
  ghost predicate EndsWithError(rest: bytes, error: GrpcError) {
    forall before, data :: DecodeFields(before + rest, |before|, data) == Err(error)
  }

  lemma {:induction false} ErrorAfterFields(before: bytes, fields: seq<Field>, rest: bytes, data: Option<bytes>, error: GrpcError)
    requires ValidFields(fields) && EndsWithError(rest, error)
    ensures DecodeFields(before + (Serialise(fields) + rest), |before|, data) == Err(error)
    decreases |fields|
  {
    hide *;
    if fields == [] {
      ErrorAtOnce(before, rest, data, error);
    } else {
      var f, tail := fields[0], fields[1..];
      SerialiseCons(fields);
      ConcatAssoc(FieldBytes(f), Serialise(tail), rest);
      ConcatAssoc(before, FieldBytes(f), Serialise(tail) + rest);
      DecodeFirstField(before, f, Serialise(tail) + rest, data);
      ErrorAfterFields(before + FieldBytes(f), tail, rest, Update(f, data), error);
    }
  }

  lemma ErrorAtOnce(before: bytes, rest: bytes, data: Option<bytes>, error: GrpcError)
    requires EndsWithError(rest, error)
    ensures DecodeFields(before + (Serialise([]) + rest), |before|, data) == Err(error)
  {
    assert Serialise([]) + rest == rest;
  }

  lemma NoVarintAt(before: bytes, s: bytes)
    requires NoVarint(s)
    ensures DecodeVarint(before + s, |before|) == None
  {
    var input := before + s;
    hide DecodeVarint, IsVarint, VarintValue;
    if DecodeVarint(input, |before|).Some? {
      var (value, end) := DecodeVarint(input, |before|).value;
      assert input[|before|..end] == s[..end - |before|];
      DecodeVarintIff(input, |before|, value, end);
    }
  }

  lemma BadKey(rest: bytes)
    requires rest != [] && NoVarint(rest)
    ensures EndsWithError(rest, InvalidVarint)
  {
    hide DecodeVarint, NoVarint;
    forall before, data: Option<bytes>
      ensures DecodeFields(before + rest, |before|, data) == Err(InvalidVarint)
    {
      NoVarintAt(before, rest);
    }
  }

  lemma BadWireType(key: bytes, rest: bytes)
    requires IsVarint(key) && VarintValue(key) % 8 != 0 && VarintValue(key) % 8 != 2
    ensures EndsWithError(key + rest, UnsupportedWireType)
  {
    hide DecodeVarint, IsVarint, VarintValue;
    forall before, data: Option<bytes>
      ensures DecodeFields(before + (key + rest), |before|, data) == Err(UnsupportedWireType)
    {
      ConcatAssoc(before, key, rest);
      DecodeVarintAt(before, key, rest);
    }
  }

  lemma BadLength(key: bytes, rest: bytes)
    requires IsVarint(key) && (VarintValue(key) % 8 == 0 || VarintValue(key) % 8 == 2) && NoVarint(rest)
    ensures EndsWithError(key + rest, InvalidVarint)
  {
    hide DecodeVarint, IsVarint, VarintValue, NoVarint;
    forall before, data: Option<bytes>
      ensures DecodeFields(before + (key + rest), |before|, data) == Err(InvalidVarint)
    {
      ConcatAssoc(before, key, rest);
      DecodeVarintAt(before, key, rest);
      NoVarintAt(before + key, rest);
    }
  }

  lemma CutShort(key: bytes, len: bytes, rest: bytes)
    requires IsVarint(key) && VarintValue(key) % 8 == 2 && IsVarint(len) && VarintValue(len) > |rest|
    ensures EndsWithError(key + (len + rest), if VarintValue(key) / 8 == 1 then TruncatedData else TruncatedField)
  {
    hide DecodeVarint, IsVarint, VarintValue;
    forall before, data: Option<bytes>
      ensures DecodeFields(before + (key + (len + rest)), |before|, data)
              == Err(if VarintValue(key) / 8 == 1 then TruncatedData else TruncatedField)
    {
      ConcatAssoc(before, key, len + rest);
      ConcatAssoc(before + key, len, rest);
      DecodeVarintAt(before, key, len + rest);
      DecodeVarintAt(before + key, len, rest);
    }
  }

  /**
   * After any good fields the first bad one decides the error: a key or length that is no varint,
   * a wire type other than 0 and 2, or a payload cut short, which is told apart for data fields.
   */
  lemma BadFieldRefused(fields: seq<Field>, key: bytes, len: bytes, rest: bytes)
    requires ValidFields(fields)
    ensures rest != [] && NoVarint(rest) ==> DecodeHunk(Serialise(fields) + rest) == Err(InvalidVarint)
    ensures IsVarint(key) && VarintValue(key) % 8 != 0 && VarintValue(key) % 8 != 2 ==>
              DecodeHunk(Serialise(fields) + (key + rest)) == Err(UnsupportedWireType)
    ensures IsVarint(key) && (VarintValue(key) % 8 == 0 || VarintValue(key) % 8 == 2) && NoVarint(rest) ==>
              DecodeHunk(Serialise(fields) + (key + rest)) == Err(InvalidVarint)
    ensures IsVarint(key) && VarintValue(key) % 8 == 2 && IsVarint(len) && VarintValue(len) > |rest| ==>
              DecodeHunk(Serialise(fields) + (key + (len + rest)))
              == Err(if VarintValue(key) / 8 == 1 then TruncatedData else TruncatedField)
  {
    hide IsVarint, VarintValue, NoVarint, ValidFields, Serialise, DecodeFields, EndsWithError;
    if rest != [] && NoVarint(rest) {
      BadKey(rest);
      ErrorFirst(fields, rest, InvalidVarint);
    }
    if IsVarint(key) && VarintValue(key) % 8 != 0 && VarintValue(key) % 8 != 2 {
      BadWireType(key, rest);
      ErrorFirst(fields, key + rest, UnsupportedWireType);
    }
    if IsVarint(key) && (VarintValue(key) % 8 == 0 || VarintValue(key) % 8 == 2) && NoVarint(rest) {
      BadLength(key, rest);
      ErrorFirst(fields, key + rest, InvalidVarint);
    }
    if IsVarint(key) && VarintValue(key) % 8 == 2 && IsVarint(len) && VarintValue(len) > |rest| {
      CutShort(key, len, rest);
      ErrorFirst(fields, key + (len + rest), if VarintValue(key) / 8 == 1 then TruncatedData else TruncatedField);
    }
  }

  lemma ErrorFirst(fields: seq<Field>, rest: bytes, error: GrpcError)
    requires ValidFields(fields) && EndsWithError(rest, error)
    ensures DecodeHunk(Serialise(fields) + rest) == Err(error)
  {
    ErrorAfterFields([], fields, rest, None, error);
    assert [] + (Serialise(fields) + rest) == Serialise(fields) + rest;
  }

  /** The decoder accepts exactly the serialised field lists, and returns their last data field. */
  lemma DecodeHunkIff(message: bytes, payload: bytes)
    ensures DecodeHunk(message) == Ok(payload) <==> exists fields :: HoldsPayload(message, fields, payload)
  {
    if DecodeHunk(message).Ok? {
      var fields := ParsedFields(message, 0, None);
      ParsedFieldsSerialise(message, 0, None);
      assert message[0..] == message;
      DecodeHunkOfFields(fields);
      assert HoldsPayload(message, fields, DecodeHunk(message).value);
    }
    forall fields | HoldsPayload(message, fields, payload)
      ensures DecodeHunk(message) == Ok(payload)
    {
      DecodeHunkOfFields(fields);
    }
  }

  /** A hunk is one length-delimited field with number 1: key 10, length and payload. */
  lemma HunkIsField(payload: bytes)
    ensures HunkMessage(payload) == Serialise([Delimited(VarintBytes(10), VarintBytes(|payload|), payload)])
  {
    assert VarintBytes(10) == [10];
    hide VarintBytes;
    var f := Delimited([10], VarintBytes(|payload|), payload);
    assert Serialise([f]) == FieldBytes(f) + Serialise([]);
  }

  lemma HunkRoundTrip(payload: bytes)
    requires |payload| < U64_RANGE
    ensures DecodeHunk(HunkMessage(payload)) == Ok(payload)
  {
    EncodedVarintIsVarint(|payload|);
    EncodedVarintIsVarint(0x0a);
    assert VarintBytes(0x0a) == [0x0a];
    var f := Delimited([0x0a], VarintBytes(|payload|), payload);
    hide DecodeHunk, IsVarint, VarintValue;
    assert ValidField(f) && IsData(f);
    assert Serialise([f]) == FieldBytes(f) + Serialise([]);
    assert Serialise([f]) == HunkMessage(payload);
    DecodeHunkOfFields([f]);
    LastDataCons(f, []);
    assert [f] + [] == [f];
  }

  // ---------------------------------------------------------------------
  // Length-prefixed frames
  // ---------------------------------------------------------------------

  /** The uncompressed frame of a message; `message.len() as u32` keeps 32 bits. */
  function Frame(message: bytes): bytes {
    [0] + BigEndian(|message| % U32_RANGE, 4) + message
  }

  /** `encode_grpc_hunk`. */
  function HunkFrame(payload: bytes): bytes {
    Frame(HunkMessage(payload))
  }

  method EncodeGrpcHunk(payload: bytes) returns (output: bytes)
    requires |payload| < U64_RANGE
    ensures output == HunkFrame(payload)
  {
    var message := EncodeHunkMessage(payload);
    output := [0];
    output := output + BigEndian(|message| % U32_RANGE, 4);
    output := output + message;
  }

  datatype Taken = NeedMore | Message(message: bytes, rest: bytes) | Rejected(error: GrpcError)

  function TakeMessage(buffer: bytes): (t: Taken)
    ensures t.Message? ==> |t.rest| < |buffer|
  {
    if |buffer| < 5 then NeedMore
    else if buffer[0] != 0 then Rejected(CompressedMessage)
    else
      var len := FromBigEndian(buffer[1..5]);
      if len > MAX_GRPC_MESSAGE_SIZE then Rejected(MessageTooLarge)
      else if |buffer| < 5 + len then NeedMore
      else Message(buffer[5..5 + len], buffer[5 + len..])
  }

  /** `take_grpc_message`: drains one frame from the front of the buffer when it is complete. */
  method TakeGrpcMessage(buffer: bytes) returns (result: Result<Option<bytes>, GrpcError>, remaining: bytes)
    ensures match TakeMessage(buffer)
            case NeedMore => result == Ok(None) && remaining == buffer
            case Message(message, rest) => result == Ok(Some(message)) && remaining == rest
            case Rejected(error) => result == Err(error) && remaining == buffer
  {
    remaining := buffer;
    if |buffer| < 5 { return Ok(None), remaining; }
    if buffer[0] != 0 { return Err(CompressedMessage), remaining; }
    var len := FromBigEndian([buffer[1], buffer[2], buffer[3], buffer[4]]);
    assert buffer[1..5] == [buffer[1], buffer[2], buffer[3], buffer[4]];
    if len > MAX_GRPC_MESSAGE_SIZE { return Err(MessageTooLarge), remaining; }
    if |buffer| < 5 + len { return Ok(None), remaining; }
    remaining := buffer[5 + len..];
    result := Ok(Some(buffer[5..5 + len]));
  }

  /**
   * A frame is taken back whole, leaving what follows it, exactly when its message is at most
   * 16 MiB. Longer messages are refused, or cut short when their length wraps at 32 bits.
   */
  lemma FrameRoundTrip(message: bytes, after: bytes)
    ensures TakeMessage(Frame(message) + after) == Message(message, after)
            <==> |message| <= 0x100_0000
  {
    var len := |message| % U32_RANGE;
    var buffer := Frame(message) + after;
    assert buffer[1..5] == BigEndian(len, 4);
    assert Pow256(4) == 256 * Pow256(3) && Pow256(3) == 256 * Pow256(2) && Pow256(2) == 256 * Pow256(1)
        && Pow256(1) == 256 * Pow256(0);
    BigEndianRoundTrip(len, 4);
    if |message| <= MAX_GRPC_MESSAGE_SIZE {
      assert buffer[5..5 + len] == message;
      assert buffer[5 + len..] == after;
    }
  }

  /** The "Length-Prefixed-Message" of gRPC over HTTP/2: a zero octet, the length in four, the message. */
  lemma FrameLayout(message: bytes)
    ensures var f := Frame(message);
            |f| == 5 + |message| && f[0] == 0 && FromBigEndian(f[1..5]) == |message| % 0x1_0000_0000 && f[5..] == message
  {
    var len := |message| % U32_RANGE;
    assert Frame(message)[1..5] == BigEndian(len, 4);
    assert Pow256(4) == 256 * Pow256(3) && Pow256(3) == 256 * Pow256(2) && Pow256(2) == 256 * Pow256(1)
        && Pow256(1) == 256 * Pow256(0);
    BigEndianRoundTrip(len, 4);
  }

  /** A message is taken exactly when a complete frame of at most 16 MiB stands in front. */
  lemma TakeMessageIff(buffer: bytes, message: bytes, rest: bytes)
    ensures TakeMessage(buffer) == Message(message, rest)
            <==> && |buffer| >= 5 && buffer[0] == 0
                 && FromBigEndian(buffer[1..5]) == |message| <= 0x100_0000
                 && buffer[5..] == message + rest
  {
    if |buffer| >= 5 {
      var body := buffer[5..];
      var len := FromBigEndian(buffer[1..5]);
      if 5 + len <= |buffer| {
        assert buffer[5..5 + len] == body[..len] && buffer[5 + len..] == body[len..];
        assert body == body[..len] + body[len..];
      }
      if body == message + rest { assert body[..|message|] == message && body[|message|..] == rest; }
    }
  }

  /** A frame is refused as soon as its prefix is there: compressed, or longer than 16 MiB. */
  lemma TakeMessageRefuses(buffer: bytes)
    ensures TakeMessage(buffer) == Rejected(CompressedMessage) <==> |buffer| >= 5 && buffer[0] != 0
    ensures TakeMessage(buffer) == Rejected(MessageTooLarge)
            <==> |buffer| >= 5 && buffer[0] == 0 && FromBigEndian(buffer[1..5]) > 0x100_0000
    ensures TakeMessage(buffer).Rejected? ==>
              TakeMessage(buffer).error == CompressedMessage || TakeMessage(buffer).error == MessageTooLarge
  {
    hide FromBigEndian;
  }

  // ---------------------------------------------------------------------
  // The receiving task
  // ---------------------------------------------------------------------

  /** What the read loop sends on its channel. */
  type HunkItem = Item<GrpcError>

  /** The outcome of draining all complete frames; `failed` means the read loop has returned. */
  datatype Drained = Drained(items: seq<HunkItem>, residue: bytes, failed: bool)

  function Drain(buffer: bytes): (d: Drained)
    decreases |buffer|
  {
    match TakeMessage(buffer)
    case NeedMore => Drained([], buffer, false)
    case Rejected(error) => Drained([Fail(error)], buffer, true)
    case Message(message, rest) =>
      match DecodeHunk(message)
      case Err(error) => Drained([Fail(error)], rest, true)
      case Ok(data) =>
        var d := Drain(rest);
        Drained([Data(data)] + d.items, d.residue, d.failed)
  }

  /** What the read loop sends when the body ends that way: the empty chunk marks the end. */
  function EndItems(ending: Ending): seq<HunkItem> {
    match ending
    case Open => []
    case Finished => [Data([])]
    case Broken => [Fail(Transport)]
  }

  /** All items sent for a body that arrives as `chunks`, with `buffer` left over from before. */
  function Pump(buffer: bytes, chunks: seq<bytes>, ending: Ending): seq<HunkItem>
    decreases |chunks|
  {
    if chunks == [] then EndItems(ending)
    else
      var d := Drain(buffer + chunks[0]);
      d.items + if d.failed then [] else Pump(d.residue, chunks[1..], ending)
  }

  /** The inner loop of `read_grpc_hunks`: take, decode and send until a frame is incomplete. */
  method DrainBuffer(received: bytes) returns (sent: seq<HunkItem>, buffer: bytes, failed: bool)
    ensures Drain(received) == Drained(sent, buffer, failed)
  {
    hide TakeMessage, DecodeHunk;
    sent, buffer, failed := [], received, false;
    while true
      invariant var d := Drain(buffer);
                Drain(received) == Drained(sent + d.items, d.residue, d.failed)
      decreases |buffer|
    {
      ghost var d := Drain(buffer);
      var message, rest := TakeGrpcMessage(buffer);
      match message
      case Ok(Some(m)) =>
        var data := DecodeHunkMessage(m);
        buffer := rest;
        if data.Err? {
          return sent + [Fail(data.error)], buffer, true;
        }
        assert sent + ([Data(data.value)] + Drain(rest).items) == (sent + [Data(data.value)]) + Drain(rest).items;
        sent := sent + [Data(data.value)];
      case Ok(None) =>
        assert sent + d.items == sent;
        return;
      case Err(error) =>
        return sent + [Fail(error)], buffer, true;
    }
  }

  /** `read_grpc_hunks`: one round of draining per chunk, then the end of the body. */
  method ReadGrpcHunks(chunks: seq<bytes>, ending: Ending) returns (sent: seq<HunkItem>)
    ensures sent == Pump([], chunks, ending)
  {
    hide *;
    assert chunks[0..] == chunks;
    sent := [];
    var buffer: bytes := [];
    var i := 0;
    while i < |chunks|
      invariant 0 <= i <= |chunks|
      invariant sent + Pump(buffer, chunks[i..], ending) == Pump([], chunks, ending)
    {
      PumpStep(buffer, chunks, i, ending);
      var items, rest, failed := DrainBuffer(buffer + chunks[i]);
      if failed {
        return sent + items;
      }
      ConcatAssoc(sent, items, Pump(rest, chunks[i + 1..], ending));
      sent := sent + items;
      buffer := rest;
      i := i + 1;
    }
    assert chunks[i..] == [];
    PumpNothing(buffer, ending);
    sent := sent + EndItems(ending);
  }

  lemma PumpStep(buffer: bytes, chunks: seq<bytes>, i: nat, ending: Ending)
    requires i < |chunks|
    ensures var d := Drain(buffer + chunks[i]);
            Pump(buffer, chunks[i..], ending)
            == if d.failed then d.items else d.items + Pump(d.residue, chunks[i + 1..], ending)
  {
    hide Drain;
    assert chunks[i..][0] == chunks[i] && chunks[i..][1..] == chunks[i + 1..];
    var d := Drain(buffer + chunks[i]);
    assert d.items + [] == d.items;
  }

  lemma PumpNothing(buffer: bytes, ending: Ending)
    ensures Pump(buffer, [], ending) == EndItems(ending)
  {
  }

  // ---------------------------------------------------------------------
  // Chunking does not matter
  // ---------------------------------------------------------------------

  lemma TakeMessageAppend(a: bytes, b: bytes)
    ensures match TakeMessage(a)
            case NeedMore => true
            case Message(message, rest) => TakeMessage(a + b) == Message(message, rest + b)
            case Rejected(error) => TakeMessage(a + b) == Rejected(error)
  {
    if |a| >= 5 {
      assert (a + b)[1..5] == a[1..5];
      var len := FromBigEndian(a[1..5]);
      if 5 + len <= |a| {
        assert (a + b)[5..5 + len] == a[5..5 + len];
        assert (a + b)[5 + len..] == a[5 + len..] + b;
      }
    }
  }

  /** Draining a longer buffer is draining its front and going on with the residue. */
  lemma {:induction false} DrainAppend(a: bytes, b: bytes)
    ensures Drain(a).failed ==> Drain(a + b).items == Drain(a).items && Drain(a + b).failed
    ensures !Drain(a).failed ==>
              var d := Drain(Drain(a).residue + b);
              Drain(a + b) == Drained(Drain(a).items + d.items, d.residue, d.failed)
    decreases |a|
  {
    hide TakeMessage, DecodeHunk;
    TakeMessageAppend(a, b);
    match TakeMessage(a)
    case NeedMore =>
    case Rejected(_) =>
    case Message(message, rest) =>
      if DecodeHunk(message).Ok? {
        DrainAppend(rest, b);
        if !Drain(a).failed {
          var d := Drain(Drain(rest).residue + b);
          assert [Data(DecodeHunk(message).value)] + (Drain(rest).items + d.items)
              == ([Data(DecodeHunk(message).value)] + Drain(rest).items) + d.items;
        }
      }
  }

  /** Between chunks the buffer never holds a complete frame, so it stays below 5 + 16 MiB. */
  lemma {:induction false} ResidueBound(buffer: bytes)
    requires !Drain(buffer).failed
    ensures TakeMessage(Drain(buffer).residue) == NeedMore
    ensures |Drain(buffer).residue| < 5 + 0x100_0000
    decreases |buffer|
  {
    if TakeMessage(buffer).Message? { ResidueBound(TakeMessage(buffer).rest); }
  }

  /** The items for a body that arrives in one piece. */
  function WholeBody(body: bytes, ending: Ending): seq<HunkItem> {
    var d := Drain(body);
    d.items + if d.failed then [] else EndItems(ending)
  }

  lemma {:induction false} PumpIsWholeBody(buffer: bytes, chunks: seq<bytes>, ending: Ending)
    requires TakeMessage(buffer) == NeedMore
    ensures Pump(buffer, chunks, ending) == WholeBody(buffer + Flatten(chunks), ending)
    decreases |chunks|
  {
    if chunks == [] {
      assert buffer + Flatten(chunks) == buffer;
    } else {
      hide TakeMessage, DecodeHunk, EndItems, Drain;
      var front, rest := buffer + chunks[0], Flatten(chunks[1..]);
      ConcatAssoc(buffer, chunks[0], rest);
      DrainAppend(front, rest);
      var d := Drain(front);
      if !d.failed {
        ResidueBound(front);
        PumpIsWholeBody(d.residue, chunks[1..], ending);
        var d2 := Drain(d.residue + rest);
        ConcatAssoc(d.items, d2.items, if d2.failed then [] else EndItems(ending));
      }
    }
  }

  /**
   * For arbitrary bytes, well formed or not, the items sent and the first error depend only on
   * the bytes of the body, not on how they were cut into chunks.
   */
  lemma ChunkingIndependent(a: seq<bytes>, b: seq<bytes>, ending: Ending)
    requires Flatten(a) == Flatten(b)
    ensures Pump([], a, ending) == Pump([], b, ending) == WholeBody(Flatten(a), ending)
  {
    PumpIsWholeBody([], a, ending);
    PumpIsWholeBody([], b, ending);
    assert [] + Flatten(a) == Flatten(a);
    hide *;
  }

  lemma {:induction false} DrainFailsLast(buffer: bytes)
    ensures FailsLast(Drain(buffer).items)
    ensures !Drain(buffer).failed ==> forall i :: 0 <= i < |Drain(buffer).items| ==> Drain(buffer).items[i].Data?
    decreases |buffer|
  {
    hide TakeMessage, DecodeHunk;
    var taken := TakeMessage(buffer);
    if taken.Message? && DecodeHunk(taken.message).Ok? { DrainFailsLast(taken.rest); }
  }

  /**
   * How a body ends for the reader: a bad frame ends it with its error, a finished body with the
   * empty chunk, a broken one with the transport error, and an open one not at all.
   */
  lemma PumpEnds(chunks: seq<bytes>, ending: Ending)
    ensures var items, d := Pump([], chunks, ending), Drain(Flatten(chunks));
            && (d.failed ==> items == d.items && items != [] && items[|items| - 1].Fail?)
            && (!d.failed && ending == Open ==> items == d.items)
            && (!d.failed && ending == Finished ==> items == d.items + [Data([])])
            && (!d.failed && ending == Broken ==> items == d.items + [Fail(Transport)])
  {
    hide *;
    ChunkingIndependent(chunks, chunks, ending);
    WholeBodyEnds(Flatten(chunks), ending);
  }

  lemma WholeBodyEnds(body: bytes, ending: Ending)
    ensures var items, d := WholeBody(body, ending), Drain(body);
            && (d.failed ==> items == d.items && items != [] && items[|items| - 1].Fail?)
            && (!d.failed && ending == Open ==> items == d.items)
            && (!d.failed && ending == Finished ==> items == d.items + [Data([])])
            && (!d.failed && ending == Broken ==> items == d.items + [Fail(Transport)])
  {
    hide Drain;
    if Drain(body).failed { DrainEndsInError(body); }
    assert Drain(body).items + [] == Drain(body).items;
  }

  lemma {:induction false} DrainEndsInError(buffer: bytes)
    requires Drain(buffer).failed
    ensures var items := Drain(buffer).items; items != [] && items[|items| - 1].Fail?
    decreases |buffer|
  {
    hide TakeMessage, DecodeHunk;
    var taken := TakeMessage(buffer);
    if taken.Message? && DecodeHunk(taken.message).Ok? { DrainEndsInError(taken.rest); }
  }

  /** The read loop sends an error only as its last item. */
  lemma PumpFailsLast(chunks: seq<bytes>, ending: Ending)
    ensures FailsLast(Pump([], chunks, ending))
  {
    ChunkingIndependent(chunks, chunks, ending);
    DrainFailsLast(Flatten(chunks));
    hide Pump, Drain;
  }
}
