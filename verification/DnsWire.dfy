/** DNS wire format: query parsing and response building (crates/keli-net-core/src/dns.rs). */
module DnsWire {
  import opened Wrappers
  import opened Bytes
  import opened Text
  import opened Net

  datatype QuestionType = A | Aaaa | Unsupported(typeCode: u16)

  function FromCode(code: u16): QuestionType {
    if code == 1 then A else if code == 28 then Aaaa else Unsupported(code)
  }

  function Code(t: QuestionType): u16 {
    match t
    case A => 1
    case Aaaa => 28
    case Unsupported(code) => code
  }

  predicate MatchesIp(t: QuestionType, ip: IpAddr) {
    match t
    case A => ip.V4?
    case Aaaa => ip.V6?
    case Unsupported(_) => false
  }

  datatype Question = Question(
    id: u16, name: bytes, questionType: QuestionType, rawQuestion: bytes, recursionDesired: bool)

  datatype WireError =
    | PacketTooShort
    | ResponsePacket
    | UnsupportedOpcode(opcode: nat)
    | QuestionCount(count: nat)
    | LabelOutOfBounds
    | CompressedQuestionName
    | InvalidLabel
    | QuestionTooShort
    | UnsupportedClass(class_: nat)

  /** The 16-bit integer at `offset`. */
  function Word(packet: bytes, offset: nat): u16
    requires offset + 2 <= |packet|
  {
    var high: int := packet[offset];
    high * 256 + packet[offset + 1]
  }

  // ---------------------------------------------------------------------
  // Parsing a query
  // ---------------------------------------------------------------------

  /** The labels from `offset` up to the root label, and the offset after it. */
  function ReadLabels(packet: bytes, offset: nat): (r: Result<(seq<bytes>, nat), WireError>)
    ensures r.Ok? ==> offset < r.value.1 <= |packet|
    decreases |packet| - offset
  {
    if offset >= |packet| then Err(LabelOutOfBounds)
    else
      var len := packet[offset];
      if len == 0 then Ok(([], offset + 1))
      else if len >= 0x40 then Err(CompressedQuestionName)
      else if offset + 1 + len > |packet| then Err(LabelOutOfBounds)
      else
        var lab := packet[offset + 1..offset + 1 + len];
        if !IsUtf8(lab) then Err(InvalidLabel)
        else match ReadLabels(packet, offset + 1 + len)
          case Err(e) => Err(e)
          case Ok((labels, next)) => Ok(([lab] + labels, next))
  }

  function LowerAll(labels: seq<bytes>): seq<bytes> {
    if labels == [] then [] else [Lower(labels[0])] + LowerAll(labels[1..])
  }

  /** `labels.join(".")`. */
  function Join(labels: seq<bytes>): bytes {
    if labels == [] then []
    else if |labels| == 1 then labels[0]
    else labels[0] + [46] + Join(labels[1..])
  }

  /** `flags & 0x8000`, the opcode field and `flags & 0x0100`, read off the flags word. */
  predicate IsResponse(flags: u16) { flags >= 0x8000 }
  function Opcode(flags: u16): nat { flags / 2048 % 16 }
  predicate RecursionDesired(flags: u16) { flags / 256 % 2 == 1 }

  /** What `parse_dns_query` returns. */
  function ParseQuery(packet: bytes): Result<Question, WireError> {
    if |packet| < 12 then Err(PacketTooShort)
    else
      var flags, count := Word(packet, 2), Word(packet, 4);
      if IsResponse(flags) then Err(ResponsePacket)
      else if Opcode(flags) != 0 then Err(UnsupportedOpcode(Opcode(flags)))
      else if count != 1 then Err(QuestionCount(count))
      else match ReadLabels(packet, 12)
        case Err(e) => Err(e)
        case Ok((labels, offset)) =>
          if offset + 4 > |packet| then Err(QuestionTooShort)
          else if Word(packet, offset + 2) != 1 then Err(UnsupportedClass(Word(packet, offset + 2)))
          else Ok(Question(Word(packet, 0), Join(LowerAll(labels)), FromCode(Word(packet, offset)),
                           packet[12..offset + 4], RecursionDesired(flags)))
  }

  /** `parse_dns_query`, with its loop over `offset` and `labels`. */
  method ParseDnsQuery(packet: bytes) returns (result: Result<Question, WireError>)
    ensures result == ParseQuery(packet)
  {
    if |packet| < 12 { return Err(PacketTooShort); }
    var id, flags := Word(packet, 0), Word(packet, 2);
    if flags >= 0x8000 { return Err(ResponsePacket); }
    var opcode := flags / 2048 % 16;
    if opcode != 0 { return Err(UnsupportedOpcode(opcode)); }
    var qdcount := Word(packet, 4);
    if qdcount != 1 { return Err(QuestionCount(qdcount)); }
    var labels, offset := ReadLowerLabels(packet);
    if labels.Err? { return Err(labels.error); }
    var questionEnd := offset + 4;
    if questionEnd > |packet| { return Err(QuestionTooShort); }
    var qtype, qclass := Word(packet, offset), Word(packet, offset + 2);
    if qclass != 1 { return Err(UnsupportedClass(qclass)); }
    result := Ok(Question(id, Join(labels.value), FromCode(qtype), packet[12..questionEnd], flags / 256 % 2 == 1));
  }

  /** The label loop of `parse_dns_query`: each label is checked and lower-cased as it is pushed. */
  method ReadLowerLabels(packet: bytes) returns (labels: Result<seq<bytes>, WireError>, offset: nat)
    ensures match ReadLabels(packet, 12)
            case Err(e) => labels == Err(e)
            case Ok((raw, next)) => labels == Ok(LowerAll(raw)) && offset == next
  {
    hide IsUtf8;
    offset := 12;
    var pushed: seq<bytes> := [];
    ghost var raw: seq<bytes> := [];
    ghost var all := ReadLabels(packet, 12);
    if all.Ok? { assert raw + all.value.0 == all.value.0; }
    while true
      invariant pushed == LowerAll(raw)
      invariant match ReadLabels(packet, offset)
                case Err(e) => ReadLabels(packet, 12) == Err(e)
                case Ok((more, next)) => ReadLabels(packet, 12) == Ok((raw + more, next))
      decreases |packet| - offset
    {
      if offset >= |packet| { return Err(LabelOutOfBounds), offset; }
      var len := packet[offset];
      if len == 0 {
        assert raw + [] == raw;
        return Ok(pushed), offset + 1;
      }
      if len >= 0x40 { return Err(CompressedQuestionName), offset; }
      var labelEnd := offset + 1 + len;
      if labelEnd > |packet| { return Err(LabelOutOfBounds), offset; }
      var lab := packet[offset + 1..labelEnd];
      if !IsUtf8(lab) { return Err(InvalidLabel), offset; }
      LowerAllSnoc(raw, lab);
      ghost var more := ReadLabels(packet, labelEnd);
      if more.Ok? { ConcatAssoc(raw, [lab], more.value.0); }
      pushed := pushed + [Lower(lab)];
      raw := raw + [lab];
      offset := labelEnd;
    }
  }

  lemma {:induction false} LowerAllSnoc(labels: seq<bytes>, lab: bytes)
    ensures LowerAll(labels + [lab]) == LowerAll(labels) + [Lower(lab)]
  {
    if labels == [] {
      assert labels + [lab] == [lab] && [lab][1..] == [];
    } else {
      assert (labels + [lab])[1..] == labels[1..] + [lab];
      LowerAllSnoc(labels[1..], lab);
    }
  }

  // ---------------------------------------------------------------------
  // Reference: the question section of section 4.1.2 of RFC 1035
  // ---------------------------------------------------------------------

  predicate ValidLabel(lab: bytes) { 1 <= |lab| <= 63 }

  predicate ValidLabels(labels: seq<bytes>) {
    forall i :: 0 <= i < |labels| ==> ValidLabel(labels[i])
  }

  predicate Utf8Labels(labels: seq<bytes>) {
    forall i :: 0 <= i < |labels| ==> IsUtf8(labels[i])
  }

  /** QNAME: each label behind its length octet, closed by the root label. */
  function EncodeName(labels: seq<bytes>): bytes
    requires ValidLabels(labels)
  {
    if labels == [] then [0]
    else [|labels[0]|] + labels[0] + EncodeName(labels[1..])
  }

  function EncodeQuestion(labels: seq<bytes>, qtype: u16, qclass: u16): bytes
    requires ValidLabels(labels)
  {
    EncodeName(labels) + BigEndian(qtype, 2) + BigEndian(qclass, 2)
  }

  /** The label reader inverts the name encoder, whatever comes before and after. */
  lemma {:induction false} ReadEncodedName(before: bytes, labels: seq<bytes>, after: bytes)
    requires ValidLabels(labels) && Utf8Labels(labels)
    ensures ReadLabels(before + EncodeName(labels) + after, |before|)
            == Ok((labels, |before| + |EncodeName(labels)|))
    decreases |labels|
  {
    hide IsUtf8;
    var packet := before + EncodeName(labels) + after;
    if labels != [] {
      var lab, tail := labels[0], EncodeName(labels[1..]);
      NameLayout(before, lab, tail, after);
      ReadEncodedName(before + ([|lab|] + lab), labels[1..], after);
      assert [lab] + labels[1..] == labels;
    }
  }

  lemma NameLayout(before: bytes, lab: bytes, tail: bytes, after: bytes)
    requires ValidLabel(lab)
    ensures var packet := before + ([|lab|] + lab + tail) + after;
            && packet == (before + ([|lab|] + lab)) + tail + after
            && packet[|before|] == |lab|
            && packet[|before| + 1..|before| + 1 + |lab|] == lab
  {
  }

  /** Whatever the label reader accepts is an encoded name of valid labels. */
  lemma {:induction false} ReadLabelsEncoded(packet: bytes, offset: nat)
    requires ReadLabels(packet, offset).Ok?
    ensures var (labels, next) := ReadLabels(packet, offset).value;
            && ValidLabels(labels) && Utf8Labels(labels)
            && packet[offset..next] == EncodeName(labels)
    decreases |packet| - offset
  {
    hide IsUtf8, ValidLabels, Utf8Labels;
    EmptyName();
    hide EncodeName;
    var (labels, next) := ReadLabels(packet, offset).value;
    var len := packet[offset];
    if len != 0 {
      var mid := offset + 1 + len;
      ReadLabelsEncoded(packet, mid);
      var more := ReadLabels(packet, mid).value.0;
      SplitLabel(packet, offset, mid, next);
      EncodeNameCons(packet[offset + 1..mid], more);
    }
  }

  lemma EmptyName()
    ensures ValidLabels([]) && Utf8Labels([]) && EncodeName([]) == [0]
  {
  }

  lemma SplitLabel(packet: bytes, offset: nat, mid: nat, next: nat)
    requires offset < mid <= next <= |packet|
    ensures packet[offset..next] == [packet[offset]] + packet[offset + 1..mid] + packet[mid..next]
  {
  }

  lemma EncodeNameCons(lab: bytes, more: seq<bytes>)
    requires ValidLabel(lab) && ValidLabels(more) && IsUtf8(lab) && Utf8Labels(more)
    ensures var labels := [lab] + more;
            && ValidLabels(labels) && Utf8Labels(labels)
            && EncodeName(labels) == [|lab|] + lab + EncodeName(more)
  {
    hide IsUtf8;
    assert ([lab] + more)[1..] == more;
  }

  lemma WordBigEndian(packet: bytes, offset: nat, value: u16)
    requires offset + 2 <= |packet|
    ensures Word(packet, offset) == value <==> packet[offset..offset + 2] == BigEndian(value, 2)
  {
    assert BigEndian(value, 2) == BigEndian(value / 256, 1) + [value % 256];
    assert BigEndian(value / 256, 1) == BigEndian(value / 256 / 256, 0) + [value / 256 % 256];
    assert packet[offset..offset + 2] == [packet[offset], packet[offset + 1]];
  }

  /** An acceptable header: not a response, opcode QUERY, one question. */
  predicate QueryHeader(packet: bytes) {
    && |packet| >= 12
    && !IsResponse(Word(packet, 2))
    && Opcode(Word(packet, 2)) == 0
    && Word(packet, 4) == 1
  }

  /** The packet asks for `labels` and `qtype` in class IN, with `rest` after the question. */
  ghost predicate Asks(packet: bytes, labels: seq<bytes>, qtype: u16, rest: bytes) {
    && QueryHeader(packet)
    && ValidLabels(labels) && Utf8Labels(labels)
    && packet[12..] == EncodeQuestion(labels, qtype, 1) + rest
  }

  function QuestionFor(packet: bytes, labels: seq<bytes>, qtype: u16): Question
    requires |packet| >= 12 && ValidLabels(labels)
  {
    Question(Word(packet, 0), Join(LowerAll(labels)), FromCode(qtype), EncodeQuestion(labels, qtype, 1),
             RecursionDesired(Word(packet, 2)))
  }

  /**
   * `parse_dns_query` inverts the question encoder: the raw question is the exact encoded octets,
   * the name is the dot-joined lower-case labels, and what follows the question does not matter.
   */
  lemma ParseEncodedQuery(packet: bytes, labels: seq<bytes>, qtype: u16, rest: bytes)
    requires Asks(packet, labels, qtype, rest)
    ensures ParseQuery(packet) == Ok(QuestionFor(packet, labels, qtype))
  {
    hide IsUtf8, ValidLabels, Utf8Labels, ReadLabels, EncodeName, BigEndian, Word;
    var name, t, c := EncodeName(labels), BigEndian(qtype, 2), BigEndian(1, 2);
    ReadEncodedName(packet[..12], labels, t + c + rest);
    QuestionLayout(packet, name, t, c, rest);
    var end := 12 + |name|;
    WordBigEndian(packet, end, qtype);
    WordBigEndian(packet, end + 2, 1);
  }

  lemma QuestionLayout(packet: bytes, name: bytes, t: bytes, c: bytes, rest: bytes)
    requires |packet| >= 12 && |t| == |c| == 2 && packet[12..] == name + t + c + rest
    ensures packet == packet[..12] + name + (t + c + rest)
    ensures var end := 12 + |name|;
            && end + 4 <= |packet|
            && packet[end..end + 2] == t && packet[end + 2..end + 4] == c
            && packet[12..end + 4] == name + t + c
  {
    assert packet == packet[..12] + packet[12..];
    var end := 12 + |name|;
    assert packet[end..end + 2] == packet[12..][|name|..|name| + 2];
    assert packet[end + 2..end + 4] == packet[12..][|name| + 2..|name| + 4];
    assert packet[12..end + 4] == packet[12..][..|name| + 4];
  }

  /** The parser accepts exactly the encoded class-IN questions under an acceptable header. */
  lemma ParseQueryIff(packet: bytes, q: Question)
    ensures ParseQuery(packet) == Ok(q)
            <==> exists labels, qtype, rest :: Asks(packet, labels, qtype, rest) && q == QuestionFor(packet, labels, qtype)
  {
    if ParseQuery(packet) == Ok(q) {
      var labels, qtype, rest := AcceptedQuery(packet);
      ParseEncodedQuery(packet, labels, qtype, rest);
    }
    forall labels, qtype, rest | Asks(packet, labels, qtype, rest) && q == QuestionFor(packet, labels, qtype)
      ensures ParseQuery(packet) == Ok(q)
    {
      ParseEncodedQuery(packet, labels, qtype, rest);
    }
  }

  lemma AcceptedQuery(packet: bytes) returns (labels: seq<bytes>, qtype: u16, rest: bytes)
    requires ParseQuery(packet).Ok?
    ensures Asks(packet, labels, qtype, rest)
  {
    hide IsUtf8, ReadLabels, EncodeName, BigEndian, ValidLabels, Utf8Labels;
    ReadLabelsEncoded(packet, 12);
    var (ls, end) := ReadLabels(packet, 12).value;
    labels, qtype, rest := ls, Word(packet, end), packet[end + 4..];
    WordBigEndian(packet, end, qtype);
    WordBigEndian(packet, end + 2, 1);
    assert packet[12..] == packet[12..end] + packet[end..end + 2] + packet[end + 2..end + 4] + rest;
  }

  // ---------------------------------------------------------------------
  // Building a response
  // ---------------------------------------------------------------------

  /** `dns_response_header`: QR and RA set, RD copied, one question. The flag bits do not overlap. */
  function ResponseHeader(q: Question, rcode: byte, answerCount: u16): (out: bytes)
    ensures |out| == 12
  {
    BigEndian(q.id, 2)
    + BigEndian(0x8080 + rcode % 16 + (if q.recursionDesired then 0x100 else 0), 2)
    + BigEndian(1, 2) + BigEndian(answerCount, 2) + BigEndian(0, 2) + BigEndian(0, 2)
  }

  function Octets(ip: IpAddr): bytes {
    match ip
    case V4(v) => BigEndian(v, 4)
    case V6(v) => BigEndian(v, 16)
  }

  /** One answer: owner pointer to offset 12, type, class IN, TTL, length and address octets. */
  function AnswerBytes(q: Question, ip: IpAddr, ttl: u32): bytes {
    [0xc0, 0x0c] + BigEndian(Code(q.questionType), 2) + BigEndian(1, 2) + BigEndian(ttl, 4)
    + BigEndian(|Octets(ip)|, 2) + Octets(ip)
  }

  /** The addresses of the family asked for, in order. */
  function Matching(t: QuestionType, ips: seq<IpAddr>): seq<IpAddr> {
    if ips == [] then []
    else (if MatchesIp(t, ips[0]) then [ips[0]] else []) + Matching(t, ips[1..])
  }

  function AnswersBytes(q: Question, ips: seq<IpAddr>, ttl: u32): bytes {
    if ips == [] then [] else AnswerBytes(q, ips[0], ttl) + AnswersBytes(q, ips[1..], ttl)
  }

  /** What `build_dns_response` returns; `answers.len() as u16` keeps 16 bits. */
  function Response(q: Question, ips: seq<IpAddr>, ttl: u32): bytes {
    var answers := Matching(q.questionType, ips);
    ResponseHeader(q, 0, |answers| % 0x1_0000) + q.rawQuestion + AnswersBytes(q, answers, ttl)
  }

  method BuildDnsResponse(q: Question, ips: seq<IpAddr>, ttl: u32) returns (response: bytes)
    ensures response == Response(q, ips, ttl)
  {
    hide ResponseHeader, AnswerBytes;
    var answers := Matching(q.questionType, ips);
    response := ResponseHeader(q, 0, |answers| % 0x1_0000);
    response := response + q.rawQuestion;
    var i := 0;
    while i < |answers|
      invariant 0 <= i <= |answers|
      invariant response + AnswersBytes(q, answers[i..], ttl) == Response(q, ips, ttl)
    {
      assert answers[i..][1..] == answers[i + 1..];
      ConcatAssoc(response, AnswerBytes(q, answers[i], ttl), AnswersBytes(q, answers[i + 1..], ttl));
      response := AppendAnswer(response, q, answers[i], ttl);
      i := i + 1;
    }
  }

  /** The loop body of `build_dns_response`. */
  method AppendAnswer(response: bytes, q: Question, ip: IpAddr, ttl: u32) returns (extended: bytes)
    ensures extended == response + AnswerBytes(q, ip, ttl)
  {
    hide BigEndian;
    extended := response + [0xc0, 0x0c];
    extended := extended + BigEndian(Code(q.questionType), 2);
    extended := extended + BigEndian(1, 2);
    extended := extended + BigEndian(ttl, 4);
    match ip
    case V4(v) =>
      extended := extended + BigEndian(4, 2);
      extended := extended + BigEndian(v, 4);
    case V6(v) =>
      extended := extended + BigEndian(16, 2);
      extended := extended + BigEndian(v, 16);
  }

  /** `build_dns_error_response`. */
  function ErrorResponse(q: Question, rcode: byte): bytes {
    ResponseHeader(q, rcode % 16, 0) + q.rawQuestion
  }

  // ---------------------------------------------------------------------
  // Reference: reading a message by sections 4.1.1 to 4.1.4 of RFC 1035
  // ---------------------------------------------------------------------

  datatype Header = Header(
    id: u16, qr: bool, opcode: nat, aa: bool, tc: bool, rd: bool, ra: bool, rcode: nat,
    qdcount: u16, ancount: u16, nscount: u16, arcount: u16)

  datatype Record = Record(owner: seq<bytes>, rtype: u16, rclass: u16, ttl: nat, rdata: bytes)

  datatype Message = Message(header: Header, qname: seq<bytes>, qtype: u16, qclass: u16, answers: seq<Record>)

  function Bit(word: nat, weight: nat): bool
    requires weight > 0
  {
    word / weight % 2 == 1
  }

  function DecodeHeader(p: bytes): Header
    requires |p| >= 12
  {
    var flags := Word(p, 2);
    Header(Word(p, 0), Bit(flags, 0x8000), flags / 0x800 % 16, Bit(flags, 0x400), Bit(flags, 0x200),
           Bit(flags, 0x100), Bit(flags, 0x80), flags % 16,
           Word(p, 4), Word(p, 6), Word(p, 8), Word(p, 10))
  }

  /**
   * A domain name: labels closed by the root label or by a pointer to a prior occurrence of the
   * rest of the name. Pointers must lead to before `limit`, so the reading ends.
   */
  function DecodeName(p: bytes, offset: nat, limit: nat): (r: Option<(seq<bytes>, nat)>)
    ensures r.Some? ==> offset < r.value.1 <= |p|
    decreases limit, |p| - offset
  {
    if offset >= |p| then None
    else
      var len := p[offset];
      if len == 0 then Some(([], offset + 1))
      else if len >= 0xc0 then
        if offset + 2 > |p| then None
        else
          var target := Word(p, offset) - 0xc000;
          if target >= limit then None
          else match DecodeName(p, target, target)
            case None => None
            case Some((labels, _)) => Some((labels, offset + 2))
      else if len >= 0x40 || offset + 1 + len > |p| then None
      else match DecodeName(p, offset + 1 + len, limit)
        case None => None
        case Some((labels, next)) => Some(([p[offset + 1..offset + 1 + len]] + labels, next))
  }

  function DecodeRecord(p: bytes, offset: nat): (r: Option<(Record, nat)>)
    ensures r.Some? ==> offset < r.value.1 <= |p|
  {
    match DecodeName(p, offset, offset)
    case None => None
    case Some((owner, fixed)) =>
      if fixed + 10 > |p| then None
      else
        var len := Word(p, fixed + 8);
        if fixed + 10 + len > |p| then None
        else Some((Record(owner, Word(p, fixed), Word(p, fixed + 2), FromBigEndian(p[fixed + 4..fixed + 8]),
                          p[fixed + 10..fixed + 10 + len]), fixed + 10 + len))
  }

  function DecodeRecords(p: bytes, offset: nat, count: nat): Option<(seq<Record>, nat)>
    decreases count
  {
    if count == 0 then Some(([], offset))
    else match DecodeRecord(p, offset)
      case None => None
      case Some((first, next)) =>
        match DecodeRecords(p, next, count - 1)
        case None => None
        case Some((more, end)) => Some(([first] + more, end))
  }

  /** A whole message with one question and nothing after its answers. */
  function DecodeMessage(p: bytes): Option<Message> {
    if |p| < 12 || DecodeHeader(p).qdcount != 1 then None
    else match DecodeName(p, 12, 12)
      case None => None
      case Some((qname, offset)) =>
        if offset + 4 > |p| then None
        else match DecodeRecords(p, offset + 4, DecodeHeader(p).ancount)
          case None => None
          case Some((answers, end)) =>
            if end != |p| then None
            else Some(Message(DecodeHeader(p), qname, Word(p, offset), Word(p, offset + 2), answers))
  }

  // ---------------------------------------------------------------------
  // The response read back
  // ---------------------------------------------------------------------

  /** The records a resolver would expect: one per address, owned by the question name. */
  function Records(owner: seq<bytes>, t: QuestionType, ips: seq<IpAddr>, ttl: u32): seq<Record> {
    if ips == [] then []
    else [Record(owner, Code(t), 1, ttl, Octets(ips[0]))] + Records(owner, t, ips[1..], ttl)
  }

  function ReplyHeader(q: Question, rcode: nat, ancount: u16): Header {
    Header(q.id, true, 0, false, false, q.recursionDesired, true, rcode, 1, ancount, 0, 0)
  }

  lemma {:induction false} DecodePlainName(p: bytes, before: bytes, labels: seq<bytes>, after: bytes, limit: nat)
    requires ValidLabels(labels) && p == before + EncodeName(labels) + after
    ensures DecodeName(p, |before|, limit) == Some((labels, |before| + |EncodeName(labels)|))
    decreases |labels|
  {
    if labels != [] {
      var lab, tail := labels[0], EncodeName(labels[1..]);
      NameLayout(before, lab, tail, after);
      DecodePlainName(p, before + ([|lab|] + lab), labels[1..], after, limit);
      assert [lab] + labels[1..] == labels;
    }
  }

  lemma HeaderLayout(p: bytes, a: bytes, b: bytes, c: bytes, d: bytes, e: bytes, f: bytes, rest: bytes)
    requires |a| == |b| == |c| == |d| == |e| == |f| == 2 && p == a + b + c + d + e + f + rest
    ensures p[0..2] == a && p[2..4] == b && p[4..6] == c && p[6..8] == d && p[8..10] == e && p[10..12] == f
  {
  }

  /** The header is read back field by field. */
  lemma ReadHeader(q: Question, rcode: byte, ancount: u16, rest: bytes)
    requires rcode < 16
    ensures DecodeHeader(ResponseHeader(q, rcode, ancount) + rest) == ReplyHeader(q, rcode, ancount)
  {
    hide BigEndian, Word;
    var flags := 0x8080 + rcode + (if q.recursionDesired then 0x100 else 0);
    var p := ResponseHeader(q, rcode, ancount) + rest;
    HeaderLayout(p, BigEndian(q.id, 2), BigEndian(flags, 2), BigEndian(1, 2), BigEndian(ancount, 2),
                 BigEndian(0, 2), BigEndian(0, 2), rest);
    WordBigEndian(p, 0, q.id);
    WordBigEndian(p, 2, flags);
    WordBigEndian(p, 4, 1);
    WordBigEndian(p, 6, ancount);
    WordBigEndian(p, 8, 0);
    WordBigEndian(p, 10, 0);
  }

  lemma AnswerLayout(p: bytes, before: bytes, t: bytes, c: bytes, l: bytes, n: bytes, octets: bytes, after: bytes)
    requires |t| == |c| == |n| == 2 && |l| == 4
    requires p == before + ([0xc0, 0x0c] + t + c + l + n + octets) + after
    ensures var o := |before|;
            && o + 12 + |octets| <= |p|
            && p[o] == 0xc0 && p[o + 1] == 0x0c
            && p[o + 2..o + 4] == t && p[o + 4..o + 6] == c && p[o + 6..o + 10] == l
            && p[o + 10..o + 12] == n && p[o + 12..o + 12 + |octets|] == octets
  {
  }

  /** One answer is read back with its owner pointer resolved to the name at offset 12. */
  lemma ReadAnswer(p: bytes, before: bytes, q: Question, ip: IpAddr, ttl: u32, after: bytes, owner: seq<bytes>)
    requires p == before + AnswerBytes(q, ip, ttl) + after && |before| > 12
    requires DecodeName(p, 12, 12).Some? && DecodeName(p, 12, 12).value.0 == owner
    ensures DecodeRecord(p, |before|)
            == Some((Record(owner, Code(q.questionType), 1, ttl, Octets(ip)), |before| + |AnswerBytes(q, ip, ttl)|))
  {
    hide BigEndian, FromBigEndian, Octets, Code;
    var o, octets := |before|, Octets(ip);
    OctetsLength(ip);
    AnswerLayout(p, before, BigEndian(Code(q.questionType), 2), BigEndian(1, 2), BigEndian(ttl, 4),
                 BigEndian(|octets|, 2), octets, after);
    WordBigEndian(p, o + 2, Code(q.questionType));
    WordBigEndian(p, o + 4, 1);
    WordBigEndian(p, o + 10, |octets|);
    TtlRoundTrip(ttl);
    assert DecodeName(p, o, o) == Some((owner, o + 2));
  }

  lemma OctetsLength(ip: IpAddr)
    ensures |Octets(ip)| == if ip.V4? then 4 else 16
  {
  }

  lemma TtlRoundTrip(ttl: u32)
    ensures FromBigEndian(BigEndian(ttl, 4)) == ttl
  {
    assert Pow256(4) == 256 * Pow256(3) && Pow256(3) == 256 * Pow256(2) && Pow256(2) == 256 * Pow256(1)
        && Pow256(1) == 256 * Pow256(0);
    BigEndianRoundTrip(ttl, 4);
  }

  lemma {:induction false} ReadAnswers(p: bytes, before: bytes, q: Question, ips: seq<IpAddr>, count: nat, ttl: u32,
                                       owner: seq<bytes>)
    requires p == before + AnswersBytes(q, ips, ttl) && |before| > 12 && count <= |ips|
    requires DecodeName(p, 12, 12).Some? && DecodeName(p, 12, 12).value.0 == owner
    ensures DecodeRecords(p, |before|, count)
            == Some((Records(owner, q.questionType, ips[..count], ttl), |before| + |AnswersBytes(q, ips[..count], ttl)|))
    decreases count
  {
    hide DecodeName, AnswerBytes, DecodeRecord, Octets, Code;
    if count > 0 {
      var first, tail := AnswerBytes(q, ips[0], ttl), AnswersBytes(q, ips[1..], ttl);
      ConcatAssoc(before, first, tail);
      ReadAnswer(p, before, q, ips[0], ttl, tail, owner);
      ReadAnswers(p, before + first, q, ips[1..], count - 1, ttl, owner);
      assert ips[..count][1..] == ips[1..][..count - 1];
    }
  }

  lemma {:induction false} AnswersLength(q: Question, ips: seq<IpAddr>, count: nat, ttl: u32)
    requires count < |ips|
    ensures |AnswersBytes(q, ips[..count], ttl)| < |AnswersBytes(q, ips, ttl)|
    decreases count
  {
    hide BigEndian, Octets, Code;
    if count > 0 {
      AnswersLength(q, ips[1..], count - 1, ttl);
      assert ips[..count][1..] == ips[1..][..count - 1];
    }
  }

  /** The question section of a response to an accepted query is read back as that query's question. */
  lemma ReadQuestion(p: bytes, head: bytes, labels: seq<bytes>, qtype: u16, rest: bytes)
    requires ValidLabels(labels) && |head| == 12 && p == head + EncodeQuestion(labels, qtype, 1) + rest
    ensures var end := 12 + |EncodeName(labels)|;
            && DecodeName(p, 12, 12) == Some((labels, end))
            && end + 4 <= |p| && end + 4 == 12 + |EncodeQuestion(labels, qtype, 1)|
            && Word(p, end) == qtype && Word(p, end + 2) == 1
  {
    hide BigEndian, Word, ValidLabels, DecodeName;
    var name, t, c := EncodeName(labels), BigEndian(qtype, 2), BigEndian(1, 2);
    assert p[12..] == name + t + c + rest;
    QuestionLayout(p, name, t, c, rest);
    assert p[..12] == head;
    DecodePlainName(p, head, labels, t + c + rest, 12);
    WordBigEndian(p, 12 + |name|, qtype);
    WordBigEndian(p, 12 + |name| + 2, 1);
  }

  function ReplyTo(q: Question, labels: seq<bytes>, qtype: u16, rcode: nat, ancount: u16, answers: seq<Record>): Message {
    Message(ReplyHeader(q, rcode, ancount), labels, qtype, 1, answers)
  }

  /**
   * For every accepted query and every list of addresses, reading the built response by RFC 1035
   * gives the same id, RD bit and question, QR set, and exactly the addresses of the family asked
   * for, in order, each owned by the question name, if and only if at most 65535 addresses match.
   * With more, the 16-bit answer count wraps and the message no longer reads as a whole.
   */
  lemma ResponseReadsBack(packet: bytes, labels: seq<bytes>, qtype: u16, rest: bytes, ips: seq<IpAddr>, ttl: u32)
    requires Asks(packet, labels, qtype, rest)
    ensures var q := QuestionFor(packet, labels, qtype);
            var answers := Matching(q.questionType, ips);
            ParseQuery(packet) == Ok(q)
            && (DecodeMessage(Response(q, ips, ttl))
                == Some(ReplyTo(q, labels, qtype, 0, |answers| % 0x1_0000, Records(labels, q.questionType, answers, ttl)))
                <==> |answers| <= 65535)
  {
    hide *;
    AsksValid(packet, labels, qtype, rest);
    ParseEncodedQuery(packet, labels, qtype, rest);
    var q := QuestionFor(packet, labels, qtype);
    QuestionForRaw(packet, labels, qtype);
    ReadBack(q, labels, qtype, Matching(q.questionType, ips), ttl);
    ResponseParts(q, ips, ttl);
  }

  lemma AsksValid(packet: bytes, labels: seq<bytes>, qtype: u16, rest: bytes)
    requires Asks(packet, labels, qtype, rest)
    ensures |packet| >= 12 && ValidLabels(labels)
  {
  }

  lemma QuestionForRaw(packet: bytes, labels: seq<bytes>, qtype: u16)
    requires |packet| >= 12 && ValidLabels(labels)
    ensures QuestionFor(packet, labels, qtype).rawQuestion == EncodeQuestion(labels, qtype, 1)
    ensures Code(QuestionFor(packet, labels, qtype).questionType) == qtype
  {
    hide EncodeQuestion;
  }

  lemma ResponseParts(q: Question, ips: seq<IpAddr>, ttl: u32)
    ensures var answers := Matching(q.questionType, ips);
            Response(q, ips, ttl)
            == ResponseHeader(q, 0, |answers| % 0x1_0000) + q.rawQuestion + AnswersBytes(q, answers, ttl)
  {
    hide ResponseHeader;
  }

  lemma ReadBack(q: Question, labels: seq<bytes>, qtype: u16, answers: seq<IpAddr>, ttl: u32)
    requires ValidLabels(labels) && q.rawQuestion == EncodeQuestion(labels, qtype, 1)
    ensures var p := ResponseHeader(q, 0, |answers| % 0x1_0000) + q.rawQuestion + AnswersBytes(q, answers, ttl);
            DecodeMessage(p)
            == Some(ReplyTo(q, labels, qtype, 0, |answers| % 0x1_0000, Records(labels, q.questionType, answers, ttl)))
            <==> |answers| <= 65535
  {
    hide *;
    var count := |answers| % 0x1_0000;
    var head, body := ResponseHeader(q, 0, count), AnswersBytes(q, answers, ttl);
    var p := head + q.rawQuestion + body;
    ConcatAssoc(head, q.rawQuestion, body);
    ReadHeader(q, 0, count, q.rawQuestion + body);
    ReadQuestion(p, head, labels, qtype, body);
    var offset := 12 + |EncodeName(labels)|;
    ReadAnswers(p, head + q.rawQuestion, q, answers, count, ttl, labels);
    var read := answers[..count];
    ReplyHeaderCounts(q, 0, count);
    Assemble(p, labels, offset, Records(labels, q.questionType, read, ttl),
             |head + q.rawQuestion| + |AnswersBytes(q, read, ttl)|);
    ReplyMeaning(q, labels, qtype, 0, count, Records(labels, q.questionType, read, ttl));
    if |answers| <= 65535 {
      assert read == answers;
    } else {
      AnswersLength(q, answers, count, ttl);
    }
  }

  lemma ReplyHeaderCounts(q: Question, rcode: nat, ancount: u16)
    ensures ReplyHeader(q, rcode, ancount).qdcount == 1 && ReplyHeader(q, rcode, ancount).ancount == ancount
  {
  }

  lemma ReplyMeaning(q: Question, labels: seq<bytes>, qtype: u16, rcode: nat, ancount: u16, answers: seq<Record>)
    ensures ReplyTo(q, labels, qtype, rcode, ancount, answers)
            == Message(ReplyHeader(q, rcode, ancount), labels, qtype, 1, answers)
  {
  }

  lemma Assemble(p: bytes, qname: seq<bytes>, offset: nat, answers: seq<Record>, end: nat)
    requires |p| >= 12 && DecodeHeader(p).qdcount == 1
    requires DecodeName(p, 12, 12) == Some((qname, offset)) && offset + 4 <= |p|
    requires DecodeRecords(p, offset + 4, DecodeHeader(p).ancount) == Some((answers, end))
    ensures DecodeMessage(p)
            == if end != |p| then None
               else Some(Message(DecodeHeader(p), qname, Word(p, offset), Word(p, offset + 2), answers))
  {
    hide DecodeHeader, DecodeName, DecodeRecords, Word;
  }

  /** An error response reads back as the question alone, with the low four bits of the code. */
  lemma ErrorResponseReadsBack(packet: bytes, labels: seq<bytes>, qtype: u16, rest: bytes, rcode: byte)
    requires Asks(packet, labels, qtype, rest)
    ensures var q := QuestionFor(packet, labels, qtype);
            DecodeMessage(ErrorResponse(q, rcode)) == Some(ReplyTo(q, labels, qtype, rcode % 16, 0, []))
  {
    hide ResponseHeader, EncodeQuestion, EncodeName, DecodeName, DecodeHeader, ValidLabels, Word, Utf8Labels;
    var q := QuestionFor(packet, labels, qtype);
    var head := ResponseHeader(q, rcode % 16, 0);
    var p := ErrorResponse(q, rcode);
    assert p == head + q.rawQuestion + [];
    ReadHeader(q, rcode % 16, 0, q.rawQuestion);
    ReadQuestion(p, head, labels, qtype, []);
  }

  /** The answers are the addresses of the family asked for, each as often as it was given, and no others. */
  lemma {:induction false} MatchingIsFilter(t: QuestionType, ips: seq<IpAddr>, ip: IpAddr)
    ensures multiset(Matching(t, ips))[ip] == if MatchesIp(t, ip) then multiset(ips)[ip] else 0
  {
    if ips != [] {
      MatchingIsFilter(t, ips[1..], ip);
      MatchingCons(t, ips);
      CountHead(ips, ip);
      CountCons(ips[0], Matching(t, ips[1..]), ip);
      hide *;
    }
  }

  lemma MatchingCons(t: QuestionType, ips: seq<IpAddr>)
    requires ips != []
    ensures var rest := Matching(t, ips[1..]);
            Matching(t, ips) == if MatchesIp(t, ips[0]) then [ips[0]] + rest else rest
  {
    assert [] + Matching(t, ips[1..]) == Matching(t, ips[1..]);
  }

  lemma CountHead(ips: seq<IpAddr>, ip: IpAddr)
    requires ips != []
    ensures multiset(ips)[ip] == multiset(ips[1..])[ip] + if ips[0] == ip then 1 else 0
  {
    assert ips == [ips[0]] + ips[1..];
    CountCons(ips[0], ips[1..], ip);
  }

  lemma CountCons(first: IpAddr, rest: seq<IpAddr>, ip: IpAddr)
    ensures multiset([first] + rest)[ip] == multiset(rest)[ip] + if first == ip then 1 else 0
  {
  }

  // ---------------------------------------------------------------------
  // What the response and the question mean, by codes and octets
  // ---------------------------------------------------------------------

  /** Every record is of the asked type in class IN, with the owner and TTL, and `width` octets of data. */
  predicate AllRecords(records: seq<Record>, owner: seq<bytes>, rtype: u16, ttl: u32, width: nat) {
    forall i :: 0 <= i < |records| ==>
                  && records[i].owner == owner && records[i].rtype == rtype && records[i].rclass == 1
                  && records[i].ttl == ttl && |records[i].rdata| == width
  }

  /** The addresses the records carry, in order. */
  function Addresses(records: seq<Record>): seq<nat> {
    if records == [] then [] else [FromBigEndian(records[0].rdata)] + Addresses(records[1..])
  }

  lemma OctetsValue(ip: IpAddr)
    ensures FromBigEndian(Octets(ip)) == if ip.V4? then ip.v4 else ip.v6
  {
    Pow256Words();
    match ip
    case V4(v) => BigEndianRoundTrip(v, 4);
    case V6(v) => BigEndianRoundTrip(v, 16);
  }

  lemma Pow256Words()
    ensures Pow256(4) == 0x1_0000_0000 && Pow256(16) == 0x1_0000_0000_0000_0000_0000_0000_0000_0000
  {
    assert Pow256(4) == 256 * Pow256(3) && Pow256(3) == 256 * Pow256(2) && Pow256(2) == 256 * Pow256(1)
        && Pow256(1) == 256 * Pow256(0);
    assert Pow256(8) == 256 * Pow256(7) && Pow256(7) == 256 * Pow256(6) && Pow256(6) == 256 * Pow256(5)
        && Pow256(5) == 256 * Pow256(4);
    assert Pow256(12) == 256 * Pow256(11) && Pow256(11) == 256 * Pow256(10) && Pow256(10) == 256 * Pow256(9)
        && Pow256(9) == 256 * Pow256(8);
    assert Pow256(16) == 256 * Pow256(15) && Pow256(15) == 256 * Pow256(14) && Pow256(14) == 256 * Pow256(13)
        && Pow256(13) == 256 * Pow256(12);
  }

  /** The records made for a question type code: A asks for IPv4, AAAA for IPv6, anything else for nothing. */
  lemma {:induction false} RecordsMeaning(owner: seq<bytes>, qtype: u16, ips: seq<IpAddr>, ttl: u32)
    ensures var t := FromCode(qtype);
            var records := Records(owner, t, Matching(t, ips), ttl);
            && AllRecords(records, owner, qtype, ttl, if qtype == 1 then 4 else 16)
            && Addresses(records) == if qtype == 1 then V4Values(ips) else if qtype == 28 then V6Values(ips) else []
  {
    if ips != [] {
      var t, ip := FromCode(qtype), ips[0];
      RecordsMeaning(owner, qtype, ips[1..], ttl);
      MatchingCons(t, ips);
      OctetsValue(ip);
      OctetsLength(ip);
      hide Octets, FromBigEndian, Matching, Records, V4Values, V6Values, Addresses, AllRecords;
      assert ips == [ip] + ips[1..];
      ValuesCons(ip, ips[1..]);
      var rest := Matching(t, ips[1..]);
      RecordsCons(owner, t, ip, rest, ttl);
      if MatchesIp(t, ip) {
        AllRecordsCons(owner, qtype, ttl, Octets(ip), Records(owner, t, rest, ttl));
      }
    }
  }

  lemma AllRecordsCons(owner: seq<bytes>, rtype: u16, ttl: u32, rdata: bytes, records: seq<Record>)
    requires AllRecords(records, owner, rtype, ttl, |rdata|)
    ensures AllRecords([Record(owner, rtype, 1, ttl, rdata)] + records, owner, rtype, ttl, |rdata|)
  {
  }

  lemma RecordsCons(owner: seq<bytes>, t: QuestionType, ip: IpAddr, rest: seq<IpAddr>, ttl: u32)
    ensures var records := Records(owner, t, rest, ttl);
            var more := Records(owner, t, [ip] + rest, ttl);
            && more == [Record(owner, Code(t), 1, ttl, Octets(ip))] + records
            && Addresses(more) == [FromBigEndian(Octets(ip))] + Addresses(records)
  {
    hide Octets, FromBigEndian, Code;
    assert ([ip] + rest)[1..] == rest;
    var records := Records(owner, t, rest, ttl);
    var first := Record(owner, Code(t), 1, ttl, Octets(ip));
    assert ([first] + records)[1..] == records;
  }

  /**
   * The built response by codes and octets: a query of type 1 is answered with records of type 1
   * and four octets that spell exactly the IPv4 addresses given, in order; one of type 28 with
   * records of type 28 and sixteen octets for the IPv6 addresses; any other with none.
   */
  lemma ResponseCarriesAddresses(
    packet: bytes, labels: seq<bytes>, qtype: u16, rest: bytes, ips: seq<IpAddr>, ttl: u32)
    requires Asks(packet, labels, qtype, rest)
    requires (if qtype == 1 then |V4Values(ips)| else if qtype == 28 then |V6Values(ips)| else 0) <= 65535
    ensures var m := DecodeMessage(Response(QuestionFor(packet, labels, qtype), ips, ttl));
            && m.Some? && m.value.header.qr && m.value.header.id == Word(packet, 0)
            && m.value.header.rd == DecodeHeader(packet).rd && m.value.header.rcode == 0
            && m.value.qname == labels && m.value.qtype == qtype && m.value.qclass == 1
            && m.value.header.ancount == |m.value.answers|
            && AllRecords(m.value.answers, labels, qtype, ttl, if qtype == 1 then 4 else 16)
            && Addresses(m.value.answers)
               == if qtype == 1 then V4Values(ips) else if qtype == 28 then V6Values(ips) else []
  {
    hide *;
    AsksValid(packet, labels, qtype, rest);
    QuestionFields(packet, labels, qtype);
    var q := QuestionFor(packet, labels, qtype);
    var answers := Matching(q.questionType, ips);
    var records := Records(labels, q.questionType, answers, ttl);
    RecordsMeaning(labels, qtype, ips, ttl);
    RecordsCount(labels, q.questionType, answers, ttl);
    ResponseReadsBack(packet, labels, qtype, rest, ips, ttl);
    ReplyFields(q, labels, qtype, |answers| % 0x1_0000, records);
  }

  lemma QuestionFields(packet: bytes, labels: seq<bytes>, qtype: u16)
    requires |packet| >= 12 && ValidLabels(labels)
    ensures var q := QuestionFor(packet, labels, qtype);
            q.id == Word(packet, 0) && q.recursionDesired == DecodeHeader(packet).rd && q.questionType == FromCode(qtype)
  {
    hide Word, EncodeQuestion, Join, LowerAll;
  }

  lemma ReplyFields(q: Question, labels: seq<bytes>, qtype: u16, count: u16, records: seq<Record>)
    ensures var m := ReplyTo(q, labels, qtype, 0, count, records);
            && m.header.qr && m.header.id == q.id && m.header.rd == q.recursionDesired && m.header.rcode == 0
            && m.qname == labels && m.qtype == qtype && m.qclass == 1
            && m.header.ancount == count && m.answers == records
  {
  }

  lemma {:induction false} RecordsCount(owner: seq<bytes>, t: QuestionType, ips: seq<IpAddr>, ttl: u32)
    ensures |Records(owner, t, ips, ttl)| == |ips| == |Addresses(Records(owner, t, ips, ttl))|
  {
    if ips != [] {
      RecordsCount(owner, t, ips[1..], ttl);
      RecordsCons(owner, t, ips[0], ips[1..], ttl);
      assert [ips[0]] + ips[1..] == ips;
      hide Octets, Code, Records, Addresses;
    }
  }

  /** The header checks are those of a standard query with one question, by section 4.1.1 of RFC 1035. */
  lemma QueryHeaderIff(packet: bytes)
    ensures QueryHeader(packet)
            <==> && |packet| >= 12
                 && var h := DecodeHeader(packet);
                    !h.qr && h.opcode == 0 && h.qdcount == 1
    ensures |packet| >= 12 ==> RecursionDesired(Word(packet, 2)) == DecodeHeader(packet).rd
  {
    hide Word;
  }

  /** The first header check that fails decides the error. */
  lemma HeaderErrors(packet: bytes)
    ensures |packet| < 12 ==> ParseQuery(packet) == Err(PacketTooShort)
    ensures |packet| >= 12 ==>
              var h := DecodeHeader(packet);
              && (h.qr ==> ParseQuery(packet) == Err(ResponsePacket))
              && (!h.qr && h.opcode != 0 ==> ParseQuery(packet) == Err(UnsupportedOpcode(h.opcode)))
              && (!h.qr && h.opcode == 0 && h.qdcount != 1 ==> ParseQuery(packet) == Err(QuestionCount(h.qdcount)))
  {
    hide Word, ReadLabels;
  }

  /** Labels each closed by a dot. */
  function Dotted(labels: seq<bytes>): bytes {
    if labels == [] then [] else labels[0] + ([46] + Dotted(labels[1..]))
  }

  /** Joining puts one dot between labels: closing the name with another gives labels closed by dots. */
  lemma {:induction false} JoinMeaning(labels: seq<bytes>)
    ensures labels == [] ==> Join(labels) == []
    ensures labels != [] ==> Join(labels) + [46] == Dotted(labels)
  {
    if |labels| == 1 {
      assert labels[1..] == [];
      assert [46] + Dotted([]) == [46];
    } else if labels != [] {
      JoinMeaning(labels[1..]);
      ConcatAssoc(labels[0] + [46], Join(labels[1..]), [46]);
      ConcatAssoc(labels[0], [46], Dotted(labels[1..]));
    }
  }

  /** The name of a question is its labels in lower case, each closed by a dot but for the last dot. */
  lemma {:induction false} LowerAllMeaning(labels: seq<bytes>)
    ensures |LowerAll(labels)| == |labels|
    ensures forall i :: 0 <= i < |labels| ==> LowerAll(labels)[i] == Lower(labels[i])
  {
    if labels != [] {
      LowerAllMeaning(labels[1..]);
      assert forall i :: 1 <= i < |labels| ==> labels[i] == labels[1..][i - 1];
    }
  }

  /** What stands where a label should start, and why it is refused; `None` for a label or the end of the name. */
  function BadLabel(at: bytes): Option<WireError> {
    if at == [] then Some(LabelOutOfBounds)
    else if at[0] == 0 then None
    else if at[0] >= 64 then Some(CompressedQuestionName)
    else if |at| <= at[0] then Some(LabelOutOfBounds)
    else if !IsUtf8(at[1..1 + at[0]]) then Some(InvalidLabel)
    else None
  }

  /** Labels without the closing root label. */
  function OpenName(labels: seq<bytes>): bytes
    requires ValidLabels(labels)
  {
    if labels == [] then [] else [|labels[0]|] + labels[0] + OpenName(labels[1..])
  }

  /** After any valid labels, the first bad label decides the error, wherever the name stands. */
  lemma {:induction false} BadLabelRefused(before: bytes, labels: seq<bytes>, bad: bytes)
    requires ValidLabels(labels) && Utf8Labels(labels) && BadLabel(bad).Some?
    ensures ReadLabels(before + OpenName(labels) + bad, |before|) == Err(BadLabel(bad).value)
    decreases |labels|
  {
    hide IsUtf8;
    var packet := before + OpenName(labels) + bad;
    if labels != [] {
      var lab, tail := labels[0], OpenName(labels[1..]);
      NameLayout(before, lab, tail, bad);
      BadLabelRefused(before + ([|lab|] + lab), labels[1..], bad);
    } else {
      assert packet == before + bad;
      assert packet[|before|..] == bad;
      if bad != [] && bad[0] < 64 && bad[0] < |bad| {
        assert packet[|before| + 1..|before| + 1 + bad[0]] == bad[1..1 + bad[0]];
      }
    }
  }

  /** After a good name, a question cut short and a class other than IN are refused as such. */
  lemma BadQuestionRefused(packet: bytes, labels: seq<bytes>, tail: bytes)
    requires QueryHeader(packet) && ValidLabels(labels) && Utf8Labels(labels) && packet[12..] == EncodeName(labels) + tail
    ensures |tail| < 4 ==> ParseQuery(packet) == Err(QuestionTooShort)
    ensures |tail| >= 4 && FromBigEndian(tail[2..4]) != 1 ==>
              ParseQuery(packet) == Err(UnsupportedClass(FromBigEndian(tail[2..4])))
  {
    hide ReadLabels, EncodeName, IsUtf8, ValidLabels, Utf8Labels, Join, LowerAll, Opcode, IsResponse;
    var name := EncodeName(labels);
    assert packet == packet[..12] + name + tail;
    ReadEncodedName(packet[..12], labels, tail);
    if |tail| >= 4 {
      var at := 12 + |name| + 2;
      assert packet[at] == tail[2] && packet[at + 1] == tail[3];
      assert tail[2..4] == [tail[2], tail[3]];
      TwoOctetsValue(tail[2], tail[3]);
    }
  }

  lemma TwoOctetsValue(a: byte, b: byte)
    ensures var x: int := a; FromBigEndian([a, b]) == x * 256 + b
  {
    assert [a, b][..1] == [a] && [a][..0] == [];
    assert FromBigEndian([a]) == FromBigEndian([]) * 256 + a;
  }
}
