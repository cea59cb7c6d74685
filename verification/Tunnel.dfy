/**
 * The gRPC tunnel from one end to the other: `write` on one side, arbitrary capacity splits and
 * re-chunking in between, the receiving task and partial reads on the other side.
 */
module GrpcTunnel {
  import opened Wrappers
  import opened Bytes
  import opened Varint
  import opened ByteStream
  import opened GrpcHunk

  /**
   * `Write::write` of the gRPC stream: an empty buffer sends nothing, anything else is sent as
   * one hunk whose octets the frames carry in order.
   */
  method GrpcWrite(buffer: bytes, polls: seq<Poll>, accepts: nat -> bool)
    returns (outcome: SendOutcome, frames: seq<DataFrame>)
    requires |buffer| < U64_RANGE
    ensures buffer == [] ==> outcome == Sent && frames == []
    ensures Flatten(Payloads(frames)) <= if buffer == [] then [] else HunkFrame(buffer)
    ensures outcome == Sent && buffer != [] ==> Flatten(Payloads(frames)) == HunkFrame(buffer)
    ensures forall i :: 0 <= i < |frames| ==> !frames[i].endStream
  {
    if buffer == [] {
      assert Payloads([]) == [];
      return Sent, [];
    }
    var hunk := EncodeGrpcHunk(buffer);
    outcome, frames := SendData(hunk, false, polls, accepts);
  }

  /** A write that sends something the other side accepts: not empty, and at most 16 MiB encoded. */
  predicate Sendable(write: bytes) {
    write != [] && |HunkMessage(write)| <= MAX_GRPC_MESSAGE_SIZE
  }

  predicate AllSendable(writes: seq<bytes>) {
    forall i :: 0 <= i < |writes| ==> Sendable(writes[i])
  }

  /** The octets that a list of writes puts on the wire. */
  function Wire(writes: seq<bytes>): bytes {
    if writes == [] then [] else HunkFrame(writes[0]) + Wire(writes[1..])
  }

  /** A complete frame in front yields the payload of its message. */
  lemma DrainFirst(message: bytes, payload: bytes, rest: bytes)
    requires |message| <= MAX_GRPC_MESSAGE_SIZE && DecodeHunk(message) == Ok(payload)
    ensures var d := Drain(rest);
            Drain(Frame(message) + rest) == Drained([Data(payload)] + d.items, d.residue, d.failed)
  {
    hide DecodeHunk, TakeMessage;
    FrameRoundTrip(message, rest);
  }

  /** Draining the wire gives back the writes, one item each, and leaves nothing over. */
  lemma {:induction false} DrainOfWrites(writes: seq<bytes>)
    requires AllSendable(writes)
    ensures Drain(Wire(writes)) == Drained(DataItems(writes), [], false)
  {
    if writes != [] {
      hide Drain;
      HunkRoundTrip(writes[0]);
      DrainFirst(HunkMessage(writes[0]), writes[0], Wire(writes[1..]));
      DrainOfWrites(writes[1..]);
    }
  }

  /** Any part of the wire received so far yields the first few writes and no error. */
  lemma DrainOfPrefix(writes: seq<bytes>, body: bytes)
    requires AllSendable(writes) && body <= Wire(writes)
    ensures !Drain(body).failed && Drain(body).items <= DataItems(writes)
  {
    hide Drain, Wire;
    DrainOfWrites(writes);
    var rest := Wire(writes)[|body|..];
    assert Wire(writes) == body + rest;
    DrainAppend(body, rest);
  }

  lemma StreamOfWrites(writes: seq<bytes>, ending: Ending)
    requires AllSendable(writes)
    ensures Stream(DataItems<GrpcError>(writes) + EndItems(ending)) == Flatten(writes)
  {
    StreamOfData(writes, EndItems(ending));
    assert EndItems(ending) != [] ==> EndItems(ending)[1..] == [];
    assert Flatten(writes) + [] == Flatten(writes);
  }

  /** The items of a prefix of the wire stand for a prefix of the written bytes. */
  lemma StreamOfBody(writes: seq<bytes>, body: bytes, ending: Ending)
    requires AllSendable(writes) && body <= Wire(writes)
    ensures Stream(WholeBody(body, ending)) <= Flatten(writes)
    ensures body == Wire(writes) ==> Stream(WholeBody(body, ending)) == Flatten(writes)
  {
    hide Drain, Wire, Stream, DataItems, EndItems, Sendable;
    DrainOfPrefix(writes, body);
    DrainOfWrites(writes);
    var items := Drain(body).items;
    DataItemsPrefix(writes, items);
    FlattenFront(writes, |items|);
    StreamOfWrites(writes[..|items|], ending);
    if body == Wire(writes) {
      DataItemsLength(writes);
      assert writes[..|items|] == writes;
    }
  }

  lemma FlattenFront(pieces: seq<bytes>, n: nat)
    requires n <= |pieces|
    ensures Flatten(pieces[..n]) <= Flatten(pieces)
  {
    hide Flatten;
    var a, b := pieces[..n], pieces[n..];
    assert a + b == pieces;
    FlattenAppend(a, b);
  }

  lemma {:induction false} DataItemsLength(writes: seq<bytes>)
    ensures |DataItems<GrpcError>(writes)| == |writes|
  {
    if writes != [] { DataItemsLength(writes[1..]); }
  }

  lemma {:induction false} DataItemsPrefix(writes: seq<bytes>, items: seq<HunkItem>)
    requires items <= DataItems(writes)
    ensures |items| <= |writes| && items == DataItems(writes[..|items|])
  {
    if items != [] {
      DataItemsPrefix(writes[1..], items[1..]);
      assert writes[..|items|][1..] == writes[1..][..|items| - 1];
    }
  }

  /** `pieces[i]` is what the send loop made of write `i`. */
  ghost predicate Sends(writes: seq<bytes>, pieces: seq<seq<bytes>>) {
    && |pieces| == |writes|
    && forall i :: 0 <= i < |writes| ==> Flatten(pieces[i]) == HunkFrame(writes[i])
  }

  lemma {:induction false} SendsMakeWire(writes: seq<bytes>, pieces: seq<seq<bytes>>)
    requires Sends(writes, pieces)
    ensures Flatten(Flatten(pieces)) == Wire(writes)
  {
    hide HunkFrame;
    if writes != [] {
      SendsMakeWire(writes[1..], pieces[1..]);
      FlattenAppend(pieces[0], Flatten(pieces[1..]));
    }
  }

  /**
   * End to end. For any non-empty writes of at most 16 MiB encoded, any split of each hunk into
   * frames, any re-chunking of the frame octets, and any interleaving of deliveries, reads of any
   * size and mode changes, the bytes read are a prefix of the concatenated writes; once the body
   * has finished, all items have been delivered and the reader is at end of file with nothing
   * buffered, they are all of them.
   */
  lemma EndToEnd(writes: seq<bytes>, pieces: seq<seq<bytes>>, chunks: seq<bytes>, ending: Ending,
                 ops: seq<Op<GrpcError>>)
    requires AllSendable(writes) && Sends(writes, pieces)
    requires Flatten(chunks) <= Flatten(Flatten(pieces))
    requires Delivered(ops) <= Pump([], chunks, ending) && ChannelOrder(ops)
    ensures BytesRead(ops) <= Flatten(writes)
    ensures Flatten(chunks) == Flatten(Flatten(pieces)) && Delivered(ops) == Pump([], chunks, ending)
            && StateAfter(ops).eof && Buffered(StateAfter(ops)) == []
            ==> BytesRead(ops) == Flatten(writes)
  {
    hide *;
    SendsMakeWire(writes, pieces);
    ChunkingIndependent(chunks, chunks, ending);
    StreamOfBody(writes, Flatten(chunks), ending);
    RunRefinesQueue(ops);
    StreamPrefix(Delivered(ops), Pump([], chunks, ending));
    PrefixTransitive(BytesRead(ops), Remaining(StateAfter(ops)), Stream(Delivered(ops)),
                     Stream(Pump([], chunks, ending)), Flatten(writes));
  }

  lemma PrefixTransitive(a: bytes, rest: bytes, b: bytes, c: bytes, d: bytes)
    requires a + rest == b && b <= c <= d
    ensures a <= d
  {
  }

  /**
   * At end of file. When the whole wire has arrived and the body has finished, a read that returns
   * zero for a non-empty buffer means every written byte has been read. The channel may have been
   * closed by then, as it is once the end marker is sent, but not before everything was delivered.
   */
  lemma EndToEndAtEof(writes: seq<bytes>, pieces: seq<seq<bytes>>, chunks: seq<bytes>,
                      ops: seq<Op<GrpcError>>, n: nat)
    requires AllSendable(writes) && Sends(writes, pieces)
    requires Flatten(chunks) == Flatten(Flatten(pieces))
    requires Delivered(ops) <= Pump([], chunks, Finished) && ChannelOrder(ops)
    requires HungUp(ops) ==> Delivered(ops) == Pump([], chunks, Finished)
    requires n > 0 && Read(StateAfter(ops), n).outcome == Count(0)
    ensures BytesRead(ops) == Flatten(writes)
  {
    hide *;
    SendsMakeWire(writes, pieces);
    ReadNext(ops, n);
    var more := ops + [ReadUpTo(n)];
    ReadTakesPrefix(StateAfter(ops), n);
    NothingLeft(StateAfter(more));
    if !HungUp(ops) { EofMeansAll(writes, chunks, more); }
    EndToEnd(writes, pieces, chunks, Finished, more);
  }

  /** A body cut short lacks a write. */
  lemma CutBodyLacksWrite(writes: seq<bytes>, body: bytes)
    requires AllSendable(writes) && body <= Wire(writes) && Drain(body).items == DataItems(writes)
    ensures body == Wire(writes)
  {
    DrainOfPrefix(writes, body);
    DrainOfWrites(writes);
    var rest := Wire(writes)[|body|..];
    assert Wire(writes) == body + rest;
    DrainAppend(body, rest);
    DrainedToNothing(Drain(body).residue + rest, Drain(body).items);
    hide Drain, Wire, DataItems;
  }

  /** A frame cut short anywhere, in a body that then finishes, is lost without an error: the reader sees a clean end. */
  lemma CutFrameEndsQuietly(write: bytes, n: nat)
    requires Sendable(write) && n < |HunkFrame(write)|
    ensures var ops: seq<Op<GrpcError>> := [Deliver(Data([])), ReadUpTo(1)];
            && Delivered(ops) == Pump([], [HunkFrame(write)[..n]], Finished)
            && StateAfter(ops).eof && BytesRead(ops) == [] && ErrorsSeen(ops) == []
  {
    CutFrameItems(write, n);
    hide Pump, HunkFrame;
    var end: Item<GrpcError> := Data([]);
    var ops: seq<Op<GrpcError>> := [Deliver(end), ReadUpTo(1)];
    assert ops[..1] == [Deliver(end)] && [Deliver(end)][..0] == [];
    assert StateAfter([Deliver(end)]) == Start<GrpcError>().(queue := [] + [end]);
  }

  lemma CutFrameItems(write: bytes, n: nat)
    requires Sendable(write) && n < |HunkFrame(write)|
    ensures Pump([], [HunkFrame(write)[..n]], Finished) == [Data([])]
  {
    var body, chunks := HunkFrame(write)[..n], [HunkFrame(write)[..n]];
    assert Wire([write]) == HunkFrame(write) + Wire([]) == HunkFrame(write);
    assert Flatten(chunks) == body + Flatten([]) == body;
    assert DataItems<GrpcError>([write]) == [Data(write)] + DataItems<GrpcError>([]) == [Data(write)];
    hide Drain, HunkFrame, Pump, Wire, Flatten, DataItems;
    DrainOfPrefix([write], body);
    if Drain(body).items == [Data(write)] { CutBodyLacksWrite([write], body); }
    PumpEnds(chunks, Finished);
    var end: HunkItem := Data([]);
    assert [] + [end] == [end];
  }

  lemma DrainedToNothing(buffer: bytes, before: seq<HunkItem>)
    requires before + Drain(buffer).items == before && Drain(buffer).residue == [] && !Drain(buffer).failed
    ensures buffer == []
  {
    assert |before + Drain(buffer).items| == |before|;
    hide TakeMessage, DecodeHunk;
  }

  lemma FlattenShorter(writes: seq<bytes>, k: nat)
    requires AllSendable(writes) && k < |writes|
    ensures Flatten(writes[..k]) != Flatten(writes)
  {
    hide Flatten, HunkMessage;
    var front, back := writes[..k], writes[k..];
    assert front + back == writes && back[0] == writes[k];
    FlattenAppend(front, back);
    FlattenFirst(back);
    assert |Flatten(writes)| == |Flatten(front)| + |Flatten(back)|;
  }

  lemma FlattenFirst(pieces: seq<bytes>)
    requires pieces != []
    ensures |Flatten(pieces)| >= |pieces[0]|
  {
  }

  /**
   * A body that finishes, wherever it was cut, is read to its last complete write; that is every
   * written byte if and only if the whole wire arrived.
   */
  lemma FinishedReadIff(writes: seq<bytes>, chunks: seq<bytes>, ops: seq<Op<GrpcError>>)
    requires AllSendable(writes) && Flatten(chunks) <= Wire(writes)
    requires Delivered(ops) == Pump([], chunks, Finished) && ChannelOrder(ops)
    requires StateAfter(ops).eof && Buffered(StateAfter(ops)) == []
    ensures BytesRead(ops) == Flatten(writes) <==> Flatten(chunks) == Wire(writes)
  {
    hide *;
    var body := Flatten(chunks);
    ChunkingIndependent(chunks, chunks, Finished);
    RunRefinesQueue(ops);
    StreamOfBody(writes, body, Finished);
    DrainOfPrefix(writes, body);
    var k := |Drain(body).items|;
    DataItemsPrefix(writes, Drain(body).items);
    StreamOfFront(writes, body, k);
    if k < |writes| {
      FlattenShorter(writes, k);
    } else {
      assert writes[..k] == writes;
      CutBodyLacksWrite(writes, body);
    }
  }

  lemma StreamOfFront(writes: seq<bytes>, body: bytes, k: nat)
    requires AllSendable(writes) && k <= |writes| && !Drain(body).failed && Drain(body).items == DataItems(writes[..k])
    ensures Stream(WholeBody(body, Finished)) == Flatten(writes[..k])
  {
    hide Drain, Stream, DataItems, Flatten, EndItems;
    StreamOfWrites(writes[..k], Finished);
  }

  lemma NothingLeft<E>(s: ReaderState<E>)
    ensures Remaining(s) == [] ==> Buffered(s) == []
  {
    hide Stream, Buffered;
  }

  lemma ReadNext(ops: seq<Op<GrpcError>>, n: nat)
    requires ChannelOrder(ops)
    ensures var more := ops + [ReadUpTo(n)];
            && ChannelOrder(more) && HungUp(more) == HungUp(ops)
            && StateAfter(more) == Read(StateAfter(ops), n).state
            && BytesRead(more) == BytesRead(ops) + Read(StateAfter(ops), n).delivered
            && Delivered(more) == Delivered(ops)
  {
    hide Read;
    var more := ops + [ReadUpTo(n)];
    assert more[..|more| - 1] == ops;
    HungUpSnoc(ops, ReadUpTo(n));
    assert forall i :: 0 <= i < |ops| ==> more[i] == ops[i];
  }

  /** A reader at end of file on a channel that was not cut off got there by the end marker. */
  lemma EofMeansAll(writes: seq<bytes>, chunks: seq<bytes>, ops: seq<Op<GrpcError>>)
    requires AllSendable(writes) && Flatten(chunks) <= Wire(writes)
    requires Delivered(ops) <= Pump([], chunks, Finished) && ChannelOrder(ops) && !HungUp(ops)
    requires StateAfter(ops).eof
    ensures Delivered(ops) == Pump([], chunks, Finished)
  {
    hide *;
    RunAccounts(ops);
    ChunkingIndependent(chunks, chunks, Finished);
    DrainOfPrefix(writes, Flatten(chunks));
    WholeBodyItems(Flatten(chunks));
    EndIsLast(writes, Drain(Flatten(chunks)).items, Delivered(ops));
    AccountsMeansEnded(StateAfter(ops), Delivered(ops), BytesRead(ops));
  }

  /**
   * End of file without a hang-up means the body finished: a broken or still open body never looks
   * like an ended stream.
   */
  lemma EofMeansFinished(writes: seq<bytes>, chunks: seq<bytes>, ending: Ending, ops: seq<Op<GrpcError>>)
    requires AllSendable(writes) && Flatten(chunks) <= Wire(writes)
    requires Delivered(ops) <= Pump([], chunks, ending) && ChannelOrder(ops) && !HungUp(ops)
    ensures StateAfter(ops).eof ==> ending == Finished
  {
    hide *;
    BodyItems(writes, chunks, ending);
    if StateAfter(ops).eof {
      EofMeansEnded(ops);
      EndedPrefix(Delivered(ops), Pump([], chunks, ending));
    }
  }

  /** A broken body is reported: once everything is consumed, the one error returned is the transport's. */
  lemma BrokenIsReported(writes: seq<bytes>, chunks: seq<bytes>, ops: seq<Op<GrpcError>>)
    requires AllSendable(writes) && Flatten(chunks) <= Wire(writes)
    requires Delivered(ops) == Pump([], chunks, Broken) && ChannelOrder(ops) && StateAfter(ops).queue == []
    ensures ErrorsSeen(ops) == [Transport]
  {
    BodyItems(writes, chunks, Broken);
    RunReportsErrors(ops);
    hide Pump, StateAfter, Delivered, ErrorsSeen, Wire;
  }

  /** No body of sendable writes, whole or cut, reports any other error. */
  lemma OnlyTransportErrors(writes: seq<bytes>, chunks: seq<bytes>, ending: Ending, ops: seq<Op<GrpcError>>)
    requires AllSendable(writes) && Flatten(chunks) <= Wire(writes)
    requires Delivered(ops) == Pump([], chunks, ending) && ChannelOrder(ops)
    ensures ErrorsSeen(ops) <= if ending == Broken then [Transport] else []
  {
    BodyItems(writes, chunks, ending);
    RunReportsErrors(ops);
    hide Pump, StateAfter, Delivered, ErrorsSeen, Wire;
  }

  lemma BodyItems(writes: seq<bytes>, chunks: seq<bytes>, ending: Ending)
    requires AllSendable(writes) && Flatten(chunks) <= Wire(writes)
    ensures var items := Pump([], chunks, ending);
            && Errors(items) == (if ending == Broken then [Transport] else [])
            && (Ended(items) <==> ending == Finished)
  {
    PumpEnds(chunks, ending);
    DrainOfPrefix(writes, Flatten(chunks));
    var seen := Drain(Flatten(chunks)).items;
    DataItemsPrefix(writes, seen);
    var more: seq<HunkItem> := if ending == Finished then [Data([])] else if ending == Broken then [Fail(Transport)] else [];
    ErrorsOfData<GrpcError>(writes[..|seen|], more);
    if more != [] { EndedCons(more); }
    hide Pump, Drain, Wire, DataItems;
    assert seen + [] == seen;
  }

  lemma WholeBodyItems(body: bytes)
    requires !Drain(body).failed
    ensures WholeBody(body, Finished) == Drain(body).items + [Data([])]
  {
    hide Drain;
  }

  lemma AccountsMeansEnded(s: ReaderState<GrpcError>, items: seq<HunkItem>, read: bytes)
    requires Accounts(s, items, read) && s.eof && !s.senderGone
    ensures exists i :: 0 <= i < |items| && IsEnd(items[i])
  {
    var consumed := items[..|items| - |s.queue|];
    var i :| 0 <= i < |consumed| && IsEnd(consumed[i]);
    assert IsEnd(items[i]);
  }

  lemma EndIsLast(writes: seq<bytes>, items: seq<HunkItem>, delivered: seq<HunkItem>)
    requires AllSendable(writes) && items <= DataItems(writes) && delivered <= items + [Data([])]
    ensures (exists i :: 0 <= i < |delivered| && IsEnd(delivered[i])) ==> delivered == items + [Data([])]
  {
    DataItemsPrefix(writes, items);
    DataItemsAt(writes);
    forall i | 0 <= i < |delivered| && i < |items|
      ensures !IsEnd(delivered[i])
    {
      assert delivered[i] == items[i] == DataItems<GrpcError>(writes)[i];
    }
  }

  lemma {:induction false} DataItemsAt(writes: seq<bytes>)
    ensures |DataItems<GrpcError>(writes)| == |writes|
    ensures forall i :: 0 <= i < |writes| ==> DataItems<GrpcError>(writes)[i] == Data(writes[i])
  {
    if writes != [] {
      DataItemsAt(writes[1..]);
      var items := DataItems<GrpcError>(writes);
      assert forall i :: 0 < i < |writes| ==> items[i] == items[1..][i - 1];
    }
  }

  // ---------------------------------------------------------------------
  // Bodies from any sender
  // ---------------------------------------------------------------------

  /** The frames of a list of messages. */
  function Frames(messages: seq<bytes>): bytes {
    if messages == [] then [] else Frame(messages[0]) + Frames(messages[1..])
  }

  /** Every message is at most 16 MiB and holds its payload, which may be empty. */
  predicate Holds(messages: seq<bytes>, payloads: seq<bytes>) {
    && |messages| == |payloads|
    && forall i :: 0 <= i < |messages| ==>
                     |messages[i]| <= MAX_GRPC_MESSAGE_SIZE && DecodeHunk(messages[i]) == Ok(payloads[i])
  }

  lemma {:induction false} DrainOfMessages(messages: seq<bytes>, payloads: seq<bytes>)
    requires Holds(messages, payloads)
    ensures Drain(Frames(messages)) == Drained(DataItems(payloads), [], false)
  {
    hide DecodeHunk;
    if messages != [] {
      hide Drain;
      DrainFirst(messages[0], payloads[0], Frames(messages[1..]));
      DrainOfMessages(messages[1..], payloads[1..]);
    }
  }

  /** Octets at whose front stands a frame that is refused, or one whose message is. */
  ghost predicate BadFrame(tail: bytes, error: GrpcError) {
    match TakeMessage(tail)
    case NeedMore => false
    case Rejected(e) => e == error
    case Message(message, _) => DecodeHunk(message) == Err(error)
  }

  lemma {:induction false} DrainToBadFrame(messages: seq<bytes>, payloads: seq<bytes>, tail: bytes, error: GrpcError)
    requires Holds(messages, payloads) && BadFrame(tail, error)
    ensures var d := Drain(Frames(messages) + tail);
            d.failed && d.items == DataItems(payloads) + [Fail(error)]
  {
    hide DecodeHunk, TakeMessage;
    if messages == [] {
      assert Frames(messages) + tail == tail;
      assert Drain(tail).items == [Fail(error)] && [] + [Fail(error)] == [Fail(error)];
    } else {
      hide Drain, BadFrame;
      ConcatAssoc(Frame(messages[0]), Frames(messages[1..]), tail);
      DrainFirst(messages[0], payloads[0], Frames(messages[1..]) + tail);
      DrainToBadFrame(messages[1..], payloads[1..], tail, error);
      assert [Data(payloads[0])] + (DataItems(payloads[1..]) + [Fail(error)])
          == [Data(payloads[0])] + DataItems(payloads[1..]) + [Fail(error)];
    }
  }

  /** Whatever the chunking and the ending, the first bad frame ends what is sent, with its error after the payloads before it. */
  lemma BadFrameReported(
    messages: seq<bytes>, payloads: seq<bytes>, tail: bytes, error: GrpcError, chunks: seq<bytes>, ending: Ending)
    requires Holds(messages, payloads) && BadFrame(tail, error) && Flatten(chunks) == Frames(messages) + tail
    ensures Pump([], chunks, ending) == DataItems(payloads) + [Fail(error)]
  {
    hide *;
    DrainToBadFrame(messages, payloads, tail, error);
    PumpEnds(chunks, ending);
  }

  /**
   * A finished body of messages from any sender, however encoded and chunked, is read to the last
   * payload octet exactly when no octets follow an empty payload: the reader takes an empty chunk
   * for the end of the stream.
   */
  lemma MessagesReadIff(messages: seq<bytes>, payloads: seq<bytes>, chunks: seq<bytes>, ops: seq<Op<GrpcError>>)
    requires Holds(messages, payloads) && Flatten(chunks) == Frames(messages)
    requires Delivered(ops) == Pump([], chunks, Finished) && ChannelOrder(ops)
    requires StateAfter(ops).eof && Buffered(StateAfter(ops)) == []
    ensures BytesRead(ops) <= Flatten(payloads)
    ensures BytesRead(ops) == Flatten(payloads) <==> EmptyOnlyAtEnd(payloads)
  {
    hide *;
    DrainOfMessages(messages, payloads);
    ChunkingIndependent(chunks, chunks, Finished);
    WholeBodyItems(Flatten(chunks));
    RunRefinesQueue(ops);
    StreamOfChunks<GrpcError>(payloads);
  }

  /** An empty hunk ahead of data does cut the stream short. */
  lemma EmptyHunkLosesData(chunks: seq<bytes>, ops: seq<Op<GrpcError>>)
    requires Flatten(chunks) == Frames([HunkMessage([]), HunkMessage([2])])
    requires Delivered(ops) == Pump([], chunks, Finished) && ChannelOrder(ops)
    requires StateAfter(ops).eof && Buffered(StateAfter(ops)) == []
    ensures Flatten([[], [2]]) == [2] && BytesRead(ops) == []
  {
    var payloads: seq<bytes> := [[], [2]];
    assert payloads[1..] == [[2]] && [[2]][1..] == [] && payloads[0] == [] && payloads[1] == [2];
    assert Flatten(payloads) == [2];
    assert !EmptyOnlyAtEnd(payloads);
    EmptyHunks();
    hide *;
    MessagesReadIff([HunkMessage([]), HunkMessage([2])], [[], [2]], chunks, ops);
    OneOctet(BytesRead(ops));
  }

  lemma EmptyHunks()
    ensures Holds([HunkMessage([]), HunkMessage([2])], [[], [2]])
  {
    HunkRoundTrip([]);
    HunkRoundTrip([2]);
    VarintBytesLength(0, 1);
    VarintBytesLength(1, 1);
    VarintBytesLength(10, 1);
    hide DecodeHunk;
  }

  lemma OneOctet(s: bytes)
    requires s <= [2] && s != [2]
    ensures s == []
  {
  }

  /** Any run fed by the read loop hands out exactly the octets before the first empty chunk or error. */
  lemma GrpcRunRefinesQueue(chunks: seq<bytes>, ending: Ending, ops: seq<Op<GrpcError>>)
    requires Delivered(ops) <= Pump([], chunks, ending) && ChannelOrder(ops)
    ensures BytesRead(ops) + Remaining(StateAfter(ops)) == UpToError(Delivered(ops))
    ensures StateAfter(ops).eof && Buffered(StateAfter(ops)) == [] ==> BytesRead(ops) == UpToError(Delivered(ops))
  {
    hide *;
    PumpFailsLast(chunks, ending);
    FedRunRefinesQueue(Pump([], chunks, ending), ops);
  }
}

/** The plain HTTP/2 tunnel (crates/keli-net-core/src/http2.rs): DATA frames are passed on as they are. */
module Http2Tunnel {
  import opened Bytes
  import opened ByteStream

  datatype TransportError = TransportError

  function EndItems(ending: Ending): seq<Item<TransportError>> {
    match ending
    case Open => []
    case Finished => [Data([])]
    case Broken => [Fail(TransportError)]
  }

  /** `read_h2_data`: every chunk is sent on, empty ones included. */
  method ReadH2Data(chunks: seq<bytes>, ending: Ending) returns (sent: seq<Item<TransportError>>)
    ensures sent == DataItems(chunks) + EndItems(ending)
  {
    sent := [];
    var i := 0;
    while i < |chunks|
      invariant 0 <= i <= |chunks|
      invariant sent + DataItems(chunks[i..]) == DataItems(chunks)
    {
      assert chunks[i..][1..] == chunks[i + 1..];
      ConcatAssoc(sent, [Data(chunks[i])], DataItems(chunks[i + 1..]));
      sent := sent + [Data(chunks[i])];
      i := i + 1;
    }
    sent := sent + EndItems(ending);
  }

  /**
   * A body that finished is read to the last octet exactly when no octets follow an empty DATA
   * frame: the reader takes the first empty chunk for the end of the stream.
   */
  lemma H2EndToEnd(chunks: seq<bytes>, ops: seq<Op<TransportError>>)
    requires Delivered(ops) == DataItems(chunks) + EndItems(Finished) && ChannelOrder(ops)
    requires StateAfter(ops).eof && Buffered(StateAfter(ops)) == []
    ensures BytesRead(ops) <= Flatten(chunks)
    ensures BytesRead(ops) == Flatten(chunks) <==> EmptyOnlyAtEnd(chunks)
  {
    hide *;
    RunRefinesQueue(ops);
    StreamOfChunks<TransportError>(chunks);
    FinishedItems();
  }

  lemma FinishedItems()
    ensures EndItems(Finished) == [Data([])]
  {
  }

  /** Before the end, the bytes read are always a prefix of the octets received. */
  lemma H2ReadsPrefix(chunks: seq<bytes>, ending: Ending, ops: seq<Op<TransportError>>)
    requires Delivered(ops) <= DataItems(chunks) + EndItems(ending) && ChannelOrder(ops)
    ensures BytesRead(ops) <= Flatten(chunks)
  {
    RunRefinesQueue(ops);
    StreamPrefix(Delivered(ops), DataItems(chunks) + EndItems(ending));
    StreamWithAnyEnd(chunks, ending);
    StreamOfChunks<TransportError>(chunks);
  }

  lemma {:induction false} StreamWithAnyEnd(chunks: seq<bytes>, ending: Ending)
    ensures Stream(DataItems(chunks) + EndItems(ending)) == Stream(DataItems(chunks) + EndItems(Finished))
  {
    StreamAppend(DataItems(chunks), EndItems(ending));
    StreamAppend(DataItems(chunks), EndItems(Finished));
    assert EndItems(ending) != [] ==> EndItems(ending)[1..] == [];
  }

  /** The read loop sends an error only as its last item. */
  lemma H2FailsLast(chunks: seq<bytes>, ending: Ending)
    ensures FailsLast(DataItems(chunks) + EndItems(ending))
  {
    DataItemsFailsLast(chunks, EndItems(ending));
  }

  /** Any run fed by the read loop hands out exactly the octets before the first empty chunk or error. */
  lemma H2RunRefinesQueue(chunks: seq<bytes>, ending: Ending, ops: seq<Op<TransportError>>)
    requires Delivered(ops) <= DataItems(chunks) + EndItems(ending) && ChannelOrder(ops)
    ensures BytesRead(ops) + Remaining(StateAfter(ops)) == UpToError(Delivered(ops))
    ensures StateAfter(ops).eof && Buffered(StateAfter(ops)) == [] ==> BytesRead(ops) == UpToError(Delivered(ops))
  {
    hide *;
    H2FailsLast(chunks, ending);
    FedRunRefinesQueue(DataItems(chunks) + EndItems(ending), ops);
  }

  /** How a body ends for the reader. */
  lemma H2Ends(chunks: seq<bytes>, ending: Ending)
    requires NonEmpty(chunks)
    ensures var items := DataItems(chunks) + EndItems(ending);
            && Errors(items) == (if ending == Broken then [TransportError] else [])
            && (Ended(items) <==> ending == Finished)
  {
    var more := EndItems(ending);
    ErrorsOfData(chunks, more);
    if more != [] { EndedCons(more); }
    hide DataItems;
  }

  /** End of file without a hang-up means the body finished, unless an empty frame came before. */
  lemma H2EofMeansFinished(chunks: seq<bytes>, ending: Ending, ops: seq<Op<TransportError>>)
    requires NonEmpty(chunks)
    requires Delivered(ops) <= DataItems(chunks) + EndItems(ending) && ChannelOrder(ops) && !HungUp(ops)
    ensures StateAfter(ops).eof ==> ending == Finished
  {
    hide *;
    H2Ends(chunks, ending);
    if StateAfter(ops).eof {
      EofMeansEnded(ops);
      EndedPrefix(Delivered(ops), DataItems(chunks) + EndItems(ending));
    }
  }

  /** A broken body is reported: once everything is consumed, the one error returned is the transport's. */
  lemma H2BrokenIsReported(chunks: seq<bytes>, ops: seq<Op<TransportError>>)
    requires NonEmpty(chunks)
    requires Delivered(ops) == DataItems(chunks) + EndItems(Broken) && ChannelOrder(ops) && StateAfter(ops).queue == []
    ensures ErrorsSeen(ops) == [TransportError]
  {
    H2Ends(chunks, Broken);
    RunReportsErrors(ops);
    hide StateAfter, Delivered, ErrorsSeen, DataItems, EndItems;
  }

  /** An empty DATA frame ahead of data does cut the stream short. */
  lemma EmptyFrameLosesData()
    ensures var chunks := [[], [2]];
            var ops: seq<Op<TransportError>> :=
              [Deliver(Data([])), Deliver(Data([2])), Deliver(Data([])), ReadUpTo(8)];
            && Delivered(ops) == DataItems(chunks) + EndItems(Finished)
            && ChannelOrder(ops) && StateAfter(ops).eof
            && BytesRead(ops) == [] && Flatten(chunks) == [2]
  {
    var end: Item<TransportError> := Data([]);
    var two: Item<TransportError> := Data([2]);
    DeliverNext([], end);
    DeliverNext([] + [Deliver(end)], two);
    DeliverNext([] + [Deliver(end)] + [Deliver(two)], end);
    var o3: seq<Op<TransportError>> := [Deliver(end), Deliver(two), Deliver(end)];
    assert o3 == [] + [Deliver(end)] + [Deliver(two)] + [Deliver(end)];
    assert (o3 + [ReadUpTo(8)])[..3] == o3;
    assert o3 + [ReadUpTo(8)] == [Deliver(end), Deliver(two), Deliver(end), ReadUpTo(8)];
    var chunks: seq<bytes> := [[], [2]];
    assert chunks[1..] == [[2]] && [[2]][1..] == [];
    assert DataItems<TransportError>(chunks) == [end, two];
  }

  lemma DeliverNext(front: seq<Op<TransportError>>, item: Item<TransportError>)
    ensures var ops := front + [Deliver(item)];
            && Delivered(ops) == Delivered(front) + [item]
            && BytesRead(ops) == BytesRead(front)
            && StateAfter(ops) == StateAfter(front).(queue := StateAfter(front).queue + [item])
  {
    var ops := front + [Deliver(item)];
    assert ops[..|ops| - 1] == front;
  }
}
