/**
 * The two byte streams over HTTP/2 (crates/keli-net-core/src/http2.rs and grpc.rs): a send loop
 * that obeys flow control, and a reader that serves a channel of chunks through partial reads.
 * Both files hold the same code for these parts.
 */
module ByteStream {
  import opened Wrappers
  import opened Bytes

  // ---------------------------------------------------------------------
  // Sending
  // ---------------------------------------------------------------------

  /** One answer of `poll_capacity`. */
  datatype Poll = Capacity(amount: nat) | CapacityError | StreamClosed

  datatype SendOutcome = Sent | PollFailed | BrokenPipe | SendRefused | Waiting

  datatype DataFrame = DataFrame(payload: bytes, endStream: bool)

  function Payloads(frames: seq<DataFrame>): (p: seq<bytes>)
    ensures |p| == |frames|
    ensures forall i :: 0 <= i < |frames| ==> p[i] == frames[i].payload
  {
    seq(|frames|, i requires 0 <= i < |frames| => frames[i].payload)
  }

  /** The positive capacities granted, in order, up to the first answer that is not a capacity. */
  function Grants(polls: seq<Poll>): seq<nat> {
    if polls == [] || !polls[0].Capacity? then []
    else if polls[0].amount == 0 then Grants(polls[1..])
    else [polls[0].amount] + Grants(polls[1..])
  }

  /** How the loop ends once the granted capacity is used up. */
  function Exhausted(polls: seq<Poll>): (outcome: SendOutcome)
    ensures outcome != Sent && outcome != SendRefused
  {
    if polls == [] then Waiting
    else match polls[0]
      case Capacity(_) => Exhausted(polls[1..])
      case CapacityError => PollFailed
      case StreamClosed => BrokenPipe
  }

  function Capacities(amounts: seq<nat>): seq<Poll> {
    if amounts == [] then [] else [Capacity(amounts[0])] + Capacities(amounts[1..])
  }

  function Positive(amounts: seq<nat>): seq<nat> {
    if amounts == [] then []
    else if amounts[0] > 0 then [amounts[0]] + Positive(amounts[1..])
    else Positive(amounts[1..])
  }

  /** The capacities before the first other poll grant what is positive; that poll, or its absence, decides the ending. */
  lemma {:induction false} PollsMeaning(amounts: seq<nat>, rest: seq<Poll>)
    requires rest == [] || !rest[0].Capacity?
    ensures Grants(Capacities(amounts) + rest) == Positive(amounts)
    ensures Exhausted(Capacities(amounts) + rest)
            == if rest == [] then Waiting else if rest[0] == CapacityError then PollFailed else BrokenPipe
  {
    var polls := Capacities(amounts) + rest;
    if amounts == [] {
      assert polls == rest;
    } else {
      assert polls[0] == Capacity(amounts[0]) && polls[1..] == Capacities(amounts[1..]) + rest;
      PollsMeaning(amounts[1..], rest);
    }
  }

  /** Every frame is non-empty and uses its whole grant, except that the final one may use less. */
  ghost predicate UsesGrants(frames: seq<DataFrame>, grants: seq<nat>, final: bool) {
    && |frames| <= |grants|
    && forall i :: 0 <= i < |frames| ==>
         && 0 < |frames[i].payload| <= grants[i]
         && (i < |frames| - 1 || !final ==> |frames[i].payload| == grants[i])
  }

  /** The frames carry `data` from the front, each as much of it as its grant allows. */
  ghost predicate Carries(frames: seq<DataFrame>, data: bytes, grants: seq<nat>) {
    && Flatten(Payloads(frames)) <= data
    && UsesGrants(frames, grants, Flatten(Payloads(frames)) == data)
  }

  /** Only the frame that completes the data may end the stream, and it does so when asked to. */
  ghost predicate EndsOnlyLast(frames: seq<DataFrame>, endStream: bool, complete: bool) {
    forall i :: 0 <= i < |frames| ==>
      (frames[i].endStream <==> endStream && complete && i == |frames| - 1)
  }

  /**
   * `send_h2_data` and `send_grpc_data`. `polls` are the answers of `poll_capacity` seen so far;
   * running out of them means the sender still waits. `accepts` says which `send_data` calls go
   * through. On success the frames carry exactly `data`, and only the last one may end the stream.
   */
  method SendData(data: bytes, endStream: bool, polls: seq<Poll>, accepts: nat -> bool)
    returns (outcome: SendOutcome, frames: seq<DataFrame>)
    ensures data == [] ==> outcome == (if accepts(0) then Sent else SendRefused)
                           && frames == (if accepts(0) then [DataFrame([], endStream)] else [])
    ensures data != [] ==> Carries(frames, data, Grants(polls))
    ensures forall i :: 0 <= i < |frames| ==> accepts(i)
    ensures EndsOnlyLast(frames, endStream, outcome == Sent)
    ensures outcome == Sent ==> Flatten(Payloads(frames)) == data
    ensures data != [] ==>
              outcome == (if Flatten(Payloads(frames)) == data then Sent
                          else if |frames| == |Grants(polls)| then Exhausted(polls)
                          else SendRefused)
    ensures outcome == SendRefused ==> !accepts(|frames|)
  {
    frames := [];
    if data == [] {
      if accepts(0) {
        frames := [DataFrame(data, endStream)];
        FlattenSnoc([], data);
        assert Payloads(frames) == [] + [data];
        return Sent, frames;
      }
      return SendRefused, frames;
    }
    outcome, frames := SendLoop(data, endStream, polls, accepts);
  }

  /** The loop of `send_h2_data`, entered with data to send. */
  method SendLoop(data: bytes, endStream: bool, polls: seq<Poll>, accepts: nat -> bool)
    returns (outcome: SendOutcome, frames: seq<DataFrame>)
    requires data != []
    ensures Carries(frames, data, Grants(polls))
    ensures forall i :: 0 <= i < |frames| ==> accepts(i)
    ensures EndsOnlyLast(frames, endStream, outcome == Sent)
    ensures outcome == (if Flatten(Payloads(frames)) == data then Sent
                        else if |frames| == |Grants(polls)| then Exhausted(polls)
                        else SendRefused)
    ensures outcome == SendRefused ==> !accepts(|frames|)
  {
    hide Flatten, Payloads, UsesGrants, EndsOnlyLast;
    var rest := data;
    var next := 0;
    frames := [];
    ghost var granted := [];
    NoFrames(endStream);
    assert polls[0..] == polls;
    while rest != []
      invariant 0 <= next <= |polls|
      invariant Flatten(Payloads(frames)) + rest == data
      invariant |granted| == |frames|
      invariant Grants(polls) == granted + Grants(polls[next..])
      invariant Exhausted(polls) == Exhausted(polls[next..])
      invariant forall i :: 0 <= i < |frames| ==> accepts(i)
      invariant UsesGrants(frames, granted, rest == [])
      invariant EndsOnlyLast(frames, endStream, rest == [])
      decreases |polls| - next
    {
      UsesMoreGrants(frames, granted, Grants(polls[next..]), false);
      if next == |polls| { return Waiting, frames; }
      assert polls[next..][1..] == polls[next + 1..];
      match polls[next]
      case CapacityError => return PollFailed, frames;
      case StreamClosed => return BrokenPipe, frames;
      case Capacity(capacity) =>
        next := next + 1;
        if capacity > 0 {
          if !accepts(|frames|) { return SendRefused, frames; }
          ConcatAssoc(granted, [capacity], Grants(polls[next..]));
          frames, rest := Emit(data, frames, rest, granted, capacity, endStream);
          granted := granted + [capacity];
        }
    }
    UsesMoreGrants(frames, granted, Grants(polls[next..]), true);
    outcome := Sent;
  }

  lemma UsesMoreGrants(frames: seq<DataFrame>, grants: seq<nat>, more: seq<nat>, final: bool)
    requires UsesGrants(frames, grants, final)
    ensures UsesGrants(frames, grants + more, final)
  {
  }

  lemma NoFrames(endStream: bool)
    ensures Flatten(Payloads([])) == []
    ensures UsesGrants([], [], false) && EndsOnlyLast([], endStream, false)
  {
    assert Payloads([]) == [];
  }

  /** `data.split_to` and `send_data`: one more frame off the front of what is left. */
  method Emit(ghost data: bytes, frames: seq<DataFrame>, rest: bytes, ghost granted: seq<nat>,
              capacity: nat, endStream: bool)
    returns (extended: seq<DataFrame>, left: bytes)
    requires capacity > 0 && rest != [] && Flatten(Payloads(frames)) + rest == data
    requires |granted| == |frames| && UsesGrants(frames, granted, false)
    requires EndsOnlyLast(frames, endStream, false)
    ensures |extended| == |frames| + 1 && Flatten(Payloads(extended)) + left == data
    ensures UsesGrants(extended, granted + [capacity], left == [])
    ensures EndsOnlyLast(extended, endStream, left == [])
  {
    var chunkLen := Min(capacity, |rest|);
    left := rest[chunkLen..];
    extended := frames + [DataFrame(rest[..chunkLen], endStream && left == [])];
    ghost var frame := extended[|frames|];
    assert rest == frame.payload + left;
    FrameAdded(frames, frame);
    GrantUsed(frames, frame, granted, capacity, left == []);
    EndAdded(frames, frame, endStream, left == []);
    hide Flatten, Payloads, UsesGrants, EndsOnlyLast;
    ConcatAssoc(Flatten(Payloads(frames)), frame.payload, left);
  }

  lemma FrameAdded(frames: seq<DataFrame>, frame: DataFrame)
    ensures Flatten(Payloads(frames + [frame])) == Flatten(Payloads(frames)) + frame.payload
  {
    assert Payloads(frames + [frame]) == Payloads(frames) + [frame.payload];
    FlattenSnoc(Payloads(frames), frame.payload);
  }

  lemma GrantUsed(frames: seq<DataFrame>, frame: DataFrame, granted: seq<nat>, capacity: nat, final: bool)
    requires |granted| == |frames| && UsesGrants(frames, granted, false)
    requires 0 < |frame.payload| <= capacity && (!final ==> |frame.payload| == capacity)
    ensures UsesGrants(frames + [frame], granted + [capacity], final)
  {
  }

  lemma EndAdded(frames: seq<DataFrame>, frame: DataFrame, endStream: bool, complete: bool)
    requires EndsOnlyLast(frames, endStream, false) && frame.endStream == (endStream && complete)
    ensures EndsOnlyLast(frames + [frame], endStream, complete)
  {
  }

  function Min(a: nat, b: nat): nat { if a < b then a else b }

  // ---------------------------------------------------------------------
  // Reading
  // ---------------------------------------------------------------------

  /** What travels on the channel from the receiving task to the reader. */
  datatype Item<+E> = Data(payload: bytes) | Fail(error: E)

  /** How the HTTP/2 body goes on after the chunks seen so far. */
  datatype Ending = Open | Finished | Broken

  /** `Pending` stands for a blocking read that has not returned yet. */
  datatype ReadOutcome<+E> = Count(n: nat) | WouldBlock | Failed(error: E) | Pending

  /** The reader's fields, and the channel as seen from its receiving end. */
  datatype ReaderState<+E> = ReaderState(
    queue: seq<Item<E>>, senderGone: bool, readBuffer: bytes, readOffset: nat, nonblocking: bool, eof: bool)

  datatype ReadStep<+E> = ReadStep(state: ReaderState<E>, outcome: ReadOutcome<E>, delivered: bytes)

  /** Serving `n` octets out of `chunk` from `offset` on. */
  function Serve<E>(s: ReaderState<E>, chunk: bytes, offset: nat, n: nat): ReadStep<E>
    requires offset < |chunk|
  {
    var end := Min(offset + n, |chunk|);
    var s' := if end == |chunk| then s.(readBuffer := [], readOffset := 0)
              else s.(readBuffer := chunk, readOffset := end);
    ReadStep(s', Count(end - offset), chunk[offset..end])
  }

  /** What one `read` with a buffer of `n` octets does. */
  function Read<E>(s: ReaderState<E>, n: nat): ReadStep<E> {
    if n == 0 then ReadStep(s, Count(0), [])
    else if s.readOffset < |s.readBuffer| then Serve(s, s.readBuffer, s.readOffset, n)
    else
      var clear := s.(readBuffer := [], readOffset := 0);
      if s.eof then ReadStep(clear, Count(0), [])
      else if s.queue == [] then
        if s.senderGone then ReadStep(clear.(eof := true), Count(0), [])
        else ReadStep(clear, if s.nonblocking then WouldBlock else Pending, [])
      else
        var popped := clear.(queue := s.queue[1..]);
        match s.queue[0]
        case Fail(error) => ReadStep(popped, Failed(error), [])
        case Data(payload) =>
          if payload == [] then ReadStep(popped.(eof := true), Count(0), [])
          else Serve(popped, payload, 0, n)
  }

  /** The stream object: `Http2TcpStream` and `GrpcTcpStream`, read side. */
  class TunnelReader<E> {
    var queue: seq<Item<E>>
    var senderGone: bool
    var readBuffer: bytes
    var readOffset: nat
    var nonblocking: bool
    var eof: bool

    function State(): ReaderState<E>
      reads this
    {
      ReaderState(queue, senderGone, readBuffer, readOffset, nonblocking, eof)
    }

    constructor ()
      ensures State() == ReaderState([], false, [], 0, false, false)
    {
      queue, senderGone, readBuffer, readOffset, nonblocking, eof := [], false, [], 0, false, false;
    }

    /** The receiving task puts an item on the channel. */
    method Deliver(item: Item<E>)
      modifies this
      ensures State() == old(State()).(queue := old(queue) + [item])
    {
      queue := queue + [item];
    }

    /** The receiving task ends and drops its end of the channel. */
    method HangUp()
      modifies this
      ensures State() == old(State()).(senderGone := true)
    {
      senderGone := true;
    }

    method SetNonblockingMode(value: bool)
      modifies this
      ensures State() == old(State()).(nonblocking := value)
    {
      nonblocking := value;
    }

    /** `read_from_buffer`. */
    method ReadFromBuffer(buffer: array<byte>) returns (amount: Option<nat>)
      modifies this, buffer
      ensures amount.None? <==> old(readOffset >= |readBuffer|)
      ensures amount.None? ==> buffer[..] == old(buffer[..])
                               && State() == old(State()).(readBuffer := [], readOffset := 0)
      ensures amount.Some? ==>
                var step := Serve(old(State()), old(readBuffer), old(readOffset), buffer.Length);
                && amount.value <= buffer.Length
                && State() == step.state && step.outcome == Count(amount.value)
                && buffer[..amount.value] == step.delivered
                && buffer[amount.value..] == old(buffer[amount.value..])
    {
      if readOffset >= |readBuffer| {
        readBuffer, readOffset := [], 0;
        return None;
      }
      var remaining := readBuffer[readOffset..];
      var count := Min(|remaining|, buffer.Length);
      ghost var was, wasBuffer := State(), buffer[..];
      forall i | 0 <= i < count {
        buffer[i] := remaining[i];
      }
      assert buffer[..count] == remaining[..count] == was.readBuffer[was.readOffset..was.readOffset + count];
      assert buffer[count..] == wasBuffer[count..];
      readOffset := readOffset + count;
      if readOffset >= |readBuffer| {
        readBuffer, readOffset := [], 0;
      }
      amount := Some(count);
    }

    /** `receive_next_read_chunk`; `Ok(true)` means a non-empty chunk is now buffered. */
    method ReceiveNextReadChunk() returns (result: Result<bool, ReadOutcome<E>>)
      modifies this
      ensures result == Ok(true) <==> !old(eof) && old(queue) != [] && old(queue)[0].Data? && old(queue)[0].payload != []
      ensures result == Ok(true) ==>
                State() == old(State()).(queue := old(queue)[1..], readBuffer := old(queue)[0].payload, readOffset := 0)
      ensures result != Ok(true) ==>
                var idle := old(State()).(readBuffer := [], readOffset := 0);
                var step := Read(idle, 1);
                && State() == step.state.(readBuffer := old(readBuffer), readOffset := old(readOffset))
                && result == (if step.outcome.Count? then Ok(false) else Err(step.outcome))
    {
      if eof { return Ok(false); }
      if queue == [] {
        if senderGone {
          eof := true;
          return Ok(false);
        }
        return Err(if nonblocking then WouldBlock else Pending);
      }
      var received := queue[0];
      queue := queue[1..];
      match received
      case Fail(error) => result := Err(Failed(error));
      case Data(payload) =>
        if payload == [] {
          eof := true;
          result := Ok(false);
        } else {
          readBuffer, readOffset := payload, 0;
          result := Ok(true);
        }
    }

    /** `Read::read`. */
    method ReadInto(buffer: array<byte>) returns (outcome: ReadOutcome<E>)
      modifies this, buffer
      ensures var step := Read(old(State()), buffer.Length);
              && State() == step.state && outcome == step.outcome
              && |step.delivered| <= buffer.Length
              && buffer[..|step.delivered|] == step.delivered
              && buffer[|step.delivered|..] == old(buffer[|step.delivered|..])
    {
      if buffer.Length == 0 { return Count(0); }
      ghost var was, wasBuffer := State(), buffer[..];
      var buffered := ReadFromBuffer(buffer);
      if buffered.Some? {
        return Count(buffered.value);
      }
      assert buffer[..] == wasBuffer;
      var received := ReceiveNextReadChunk();
      if received.Err? { return received.error; }
      if !received.value { return Count(0); }
      var served := ReadFromBuffer(buffer);
      outcome := Count(if served.Some? then served.value else 0);
    }
  }

  // ---------------------------------------------------------------------
  // Refinement of a byte queue, over whole runs
  // ---------------------------------------------------------------------

  /** The bytes a channel's items stand for: everything before the first empty chunk. */
  function Stream<E>(items: seq<Item<E>>): bytes {
    if items == [] then []
    else if items[0].Fail? then Stream(items[1..])
    else if items[0].payload == [] then []
    else items[0].payload + Stream(items[1..])
  }

  predicate IsEnd<E>(item: Item<E>) { item.Data? && item.payload == [] }

  predicate Ended<E>(items: seq<Item<E>>) {
    exists i :: 0 <= i < |items| && IsEnd(items[i])
  }

  lemma {:induction false} StreamAppend<E>(a: seq<Item<E>>, b: seq<Item<E>>)
    ensures Stream(a + b) == if Ended(a) then Stream(a) else Stream(a) + Stream(b)
  {
    if a == [] {
      assert a + b == b;
    } else {
      assert (a + b)[1..] == a[1..] + b;
      StreamAppend(a[1..], b);
      if IsEnd(a[0]) {
        assert Ended(a);
      } else {
        assert Ended(a) == Ended(a[1..]) by {
          if Ended(a) {
            var i :| 0 <= i < |a| && IsEnd(a[i]);
            assert a[1..][i - 1] == a[i];
          }
          if Ended(a[1..]) {
            var i :| 0 <= i < |a[1..]| && IsEnd(a[1..][i]);
            assert a[i + 1] == a[1..][i];
          }
        }
      }
    }
  }

  /** The unread part of the current chunk. */
  function Buffered<E>(s: ReaderState<E>): bytes {
    if s.readOffset < |s.readBuffer| then s.readBuffer[s.readOffset..] else []
  }

  /** What the reader still has to deliver, by its buffer and channel. */
  function Remaining<E>(s: ReaderState<E>): bytes {
    Buffered(s) + if s.eof then [] else Stream(s.queue)
  }

  /**
   * One read takes a prefix of at most `n` octets off the abstract queue and changes nothing
   * else about it. It reports end of file only when nothing is left, and makes progress whenever
   * the next thing to deliver is data.
   */
  lemma ReadTakesPrefix<E>(s: ReaderState<E>, n: nat)
    ensures var step := Read(s, n);
            && step.delivered + Remaining(step.state) == Remaining(s)
            && |step.delivered| <= n
            && (step.outcome.Count? ==> step.outcome.n == |step.delivered|)
            && (!step.outcome.Count? ==> step.delivered == [])
            && (n > 0 && step.outcome == Count(0) ==> step.state.eof && Remaining(s) == [])
            && (step.outcome == Pending || step.outcome == WouldBlock <==>
                  n > 0 && Buffered(s) == [] && !s.eof && s.queue == [] && !s.senderGone)
            && (step.outcome == WouldBlock ==> s.nonblocking) && (step.outcome == Pending ==> !s.nonblocking)
            && (step.outcome.Failed? <==> n > 0 && Buffered(s) == [] && !s.eof && s.queue != [] && s.queue[0].Fail?)
  {
    var step := Read(s, n);
    if n > 0 {
      if s.readOffset < |s.readBuffer| {
        ServeTakesPrefix(s, s.readBuffer, s.readOffset, n);
      } else if !s.eof && s.queue != [] && s.queue[0].Data? && s.queue[0].payload != [] {
        var popped := s.(readBuffer := [], readOffset := 0, queue := s.queue[1..]);
        ServeTakesPrefix(popped, s.queue[0].payload, 0, n);
      }
    }
  }

  lemma ServeTakesPrefix<E>(s: ReaderState<E>, chunk: bytes, offset: nat, n: nat)
    requires offset < |chunk| && n > 0
    ensures var step := Serve(s, chunk, offset, n);
            && step.delivered + Remaining(step.state) == chunk[offset..] + (if s.eof then [] else Stream(s.queue))
            && 0 < |step.delivered| <= n && step.outcome == Count(|step.delivered|)
  {
    hide Stream;
    ServeKeepsBytes(s, chunk, offset, n);
    var step := Serve(s, chunk, offset, n);
    var rest := if s.eof then [] else Stream(s.queue);
    assert step.delivered + (Buffered(step.state) + rest) == (step.delivered + Buffered(step.state)) + rest;
  }

  datatype Op<+E> = Deliver(item: Item<E>) | HangUp | SetNonblocking(value: bool) | ReadUpTo(n: nat)

  function Start<E>(): ReaderState<E> { ReaderState([], false, [], 0, false, false) }

  function StateAfter<E>(ops: seq<Op<E>>): ReaderState<E> {
    if ops == [] then Start()
    else
      var s := StateAfter(ops[..|ops| - 1]);
      match ops[|ops| - 1]
      case Deliver(item) => s.(queue := s.queue + [item])
      case HangUp => s.(senderGone := true)
      case SetNonblocking(value) => s.(nonblocking := value)
      case ReadUpTo(n) => Read(s, n).state
  }

  /** All bytes handed out by the reads of a run, in order. */
  function BytesRead<E>(ops: seq<Op<E>>): bytes {
    if ops == [] then []
    else
      var front, last := ops[..|ops| - 1], ops[|ops| - 1];
      BytesRead(front) + if last.ReadUpTo? then Read(StateAfter(front), last.n).delivered else []
  }

  /** All items put on the channel during a run, in order. */
  function Delivered<E>(ops: seq<Op<E>>): seq<Item<E>> {
    if ops == [] then []
    else
      var front, last := ops[..|ops| - 1], ops[|ops| - 1];
      Delivered(front) + if last.Deliver? then [last.item] else []
  }

  /** A channel delivers nothing once its sender is gone. */
  predicate ChannelOrder<E>(ops: seq<Op<E>>) {
    forall i, j :: 0 <= i < j < |ops| && ops[i].HangUp? ==> !ops[j].Deliver?
  }

  /** `items` is what was delivered: some of it consumed, the rest still queued. */
  ghost predicate Accounts<E>(s: ReaderState<E>, items: seq<Item<E>>, read: bytes) {
    && |s.queue| <= |items|
    && var consumed := items[..|items| - |s.queue|];
    && items == consumed + s.queue
    && read + Buffered(s) == Stream(consumed)
    && (!s.eof ==> !Ended(consumed))
    && (s.eof ==> Ended(consumed) || (s.senderGone && s.queue == []))
  }

  lemma ReadAccounts<E>(s: ReaderState<E>, items: seq<Item<E>>, read: bytes, n: nat)
    requires Accounts(s, items, read)
    ensures Accounts(Read(s, n).state, items, read + Read(s, n).delivered)
  {
    hide Stream, Ended;
    if n == 0 || (s.eof && s.readOffset >= |s.readBuffer|) {
      assert read + [] == read;
    } else if s.readOffset < |s.readBuffer| {
      ServeKeepsBytes(s, s.readBuffer, s.readOffset, n);
      assert read + Read(s, n).delivered + Buffered(Read(s, n).state) == read + Buffered(s);
    } else {
      ReceiveAccounts(s, items, read, n);
    }
  }

  lemma ServeKeepsBytes<E>(s: ReaderState<E>, chunk: bytes, offset: nat, n: nat)
    requires offset < |chunk|
    ensures var step := Serve(s, chunk, offset, n);
            && step.delivered + Buffered(step.state) == chunk[offset..]
            && step.state == s.(readBuffer := step.state.readBuffer, readOffset := step.state.readOffset)
  {
    var end := Min(offset + n, |chunk|);
    assert chunk[offset..] == chunk[offset..end] + chunk[end..];
  }

  lemma ReceiveAccounts<E>(s: ReaderState<E>, items: seq<Item<E>>, read: bytes, n: nat)
    requires Accounts(s, items, read) && n > 0 && s.readOffset >= |s.readBuffer| && !s.eof
    ensures Accounts(Read(s, n).state, items, read + Read(s, n).delivered)
  {
    hide Stream, Ended;
    assert read + [] == read;
    if s.queue != [] {
      var k := |items| - |s.queue|;
      ConsumeOne(items, k);
      assert s.queue[0] == items[k];
      assert s.queue[1..] == items[k + 1..];
      if s.queue[0].Data? && s.queue[0].payload != [] {
        var popped := s.(readBuffer := [], readOffset := 0, queue := s.queue[1..]);
        var payload := s.queue[0].payload;
        ServeKeepsBytes(popped, payload, 0, n);
        var step := Serve(popped, payload, 0, n);
        assert (read + step.delivered) + Buffered(step.state) == read + payload;
      }
    }
  }

  /** Consuming one more item appends its payload to the stream. */
  lemma ConsumeOne<E>(items: seq<Item<E>>, k: nat)
    requires k < |items| && !Ended(items[..k])
    ensures items == items[..k + 1] + items[k + 1..]
    ensures Ended(items[..k + 1]) <==> IsEnd(items[k])
    ensures Stream(items[..k + 1]) == Stream(items[..k]) + if items[k].Data? then items[k].payload else []
  {
    var front, one := items[..k], [items[k]];
    assert items[..k + 1] == front + one;
    StreamAppend(front, one);
    assert one[1..] == [];
    if IsEnd(items[k]) { assert IsEnd(items[..k + 1][k]); }
    assert forall i :: 0 <= i < k ==> items[..k + 1][i] == front[i];
  }

  lemma DeliverAccounts<E>(s: ReaderState<E>, items: seq<Item<E>>, read: bytes, item: Item<E>)
    requires Accounts(s, items, read) && !s.senderGone
    ensures Accounts(s.(queue := s.queue + [item]), items + [item], read)
  {
    hide Stream, Ended;
    var k := |items| - |s.queue|;
    assert (items + [item])[..k] == items[..k];
    assert items + [item] == items[..k] + (s.queue + [item]);
  }

  predicate HungUp<E>(ops: seq<Op<E>>) {
    exists i :: 0 <= i < |ops| && ops[i].HangUp?
  }

  lemma HungUpSnoc<E>(front: seq<Op<E>>, last: Op<E>)
    ensures HungUp(front + [last]) <==> HungUp(front) || last.HangUp?
    ensures ChannelOrder(front + [last]) ==> ChannelOrder(front) && (HungUp(front) ==> !last.Deliver?)
  {
    var ops := front + [last];
    assert ops[|front|] == last;
    assert forall i :: 0 <= i < |front| ==> ops[i] == front[i];
    if HungUp(front) {
      var i :| 0 <= i < |front| && front[i].HangUp?;
      assert ops[i].HangUp?;
    }
    if last.HangUp? { assert ops[|front|].HangUp?; }
  }

  lemma {:induction false} RunAccounts<E>(ops: seq<Op<E>>)
    requires ChannelOrder(ops)
    ensures Accounts(StateAfter(ops), Delivered(ops), BytesRead(ops))
    ensures StateAfter(ops).senderGone <==> HungUp(ops)
  {
    if ops == [] {
      assert Stream<E>([]) == [];
    } else {
      var n := |ops| - 1;
      var front, last := ops[..n], ops[n];
      assert ops == front + [last];
      HungUpSnoc(front, last);
      RunAccounts(front);
      RunStep(front, last);
    }
  }

  lemma RunStep<E>(front: seq<Op<E>>, last: Op<E>)
    requires Accounts(StateAfter(front), Delivered(front), BytesRead(front))
    requires StateAfter(front).senderGone ==> !last.Deliver?
    ensures var ops := front + [last];
            && Accounts(StateAfter(ops), Delivered(ops), BytesRead(ops))
            && (StateAfter(ops).senderGone <==> StateAfter(front).senderGone || last.HangUp?)
  {
    hide Stream, Ended, Accounts, Read;
    var ops := front + [last];
    assert ops[..|ops| - 1] == front;
    var s := StateAfter(front);
    assert BytesRead(front) + [] == BytesRead(front) && Delivered(front) + [] == Delivered(front);
    match last
    case Deliver(item) => DeliverAccounts(s, Delivered(front), BytesRead(front), item);
    case HangUp => FlagsAccount(s, s.(senderGone := true), Delivered(front), BytesRead(front));
    case SetNonblocking(value) => FlagsAccount(s, s.(nonblocking := value), Delivered(front), BytesRead(front));
    case ReadUpTo(k) =>
      ReadAccounts(s, Delivered(front), BytesRead(front), k);
      ReadKeepsSender(s, k);
  }

  lemma FlagsAccount<E>(s: ReaderState<E>, t: ReaderState<E>, items: seq<Item<E>>, read: bytes)
    requires Accounts(s, items, read) && t == s.(nonblocking := t.nonblocking, senderGone := t.senderGone)
    requires s.senderGone ==> t.senderGone
    ensures Accounts(t, items, read)
  {
    hide Stream, Ended;
  }

  lemma ReadKeepsSender<E>(s: ReaderState<E>, n: nat)
    ensures Read(s, n).state.senderGone == s.senderGone
  {
  }

  /**
   * Any run of blocking and non-blocking reads hands out, in order and without loss or repeat,
   * the bytes of the delivered chunks before the first empty one: what has been read and what
   * remains make up exactly that stream, and once the reader is at end of file with an empty
   * buffer it has handed out all of it.
   */
  lemma RunRefinesQueue<E>(ops: seq<Op<E>>)
    requires ChannelOrder(ops)
    ensures BytesRead(ops) + Remaining(StateAfter(ops)) == Stream(Delivered(ops))
    ensures StateAfter(ops).eof && Buffered(StateAfter(ops)) == [] ==> BytesRead(ops) == Stream(Delivered(ops))
  {
    RunAccounts(ops);
    AccountsGiveStream(StateAfter(ops), Delivered(ops), BytesRead(ops));
  }

  lemma AccountsGiveStream<E>(s: ReaderState<E>, items: seq<Item<E>>, read: bytes)
    requires Accounts(s, items, read)
    ensures read + Remaining(s) == Stream(items)
  {
    StreamAppend(items[..|items| - |s.queue|], s.queue);
    StreamOfNothing(s.queue);
    hide Ended, Stream, Buffered;
    ConcatAssoc(read, Buffered(s), Stream(s.queue));
    assert Buffered(s) + [] == Buffered(s);
  }

  /** Later items never take back earlier bytes. */
  lemma StreamPrefix<E>(a: seq<Item<E>>, b: seq<Item<E>>)
    requires a <= b
    ensures Stream(a) <= Stream(b)
  {
    assert b == a + b[|a|..];
    StreamAppend(a, b[|a|..]);
  }

  /** One item per chunk, in order. */
  function DataItems<E>(chunks: seq<bytes>): seq<Item<E>> {
    if chunks == [] then [] else [Data(chunks[0])] + DataItems(chunks[1..])
  }

  predicate NonEmpty(chunks: seq<bytes>) {
    forall i :: 0 <= i < |chunks| ==> chunks[i] != []
  }

  lemma {:induction false} StreamOfData<E>(chunks: seq<bytes>, more: seq<Item<E>>)
    requires NonEmpty(chunks)
    ensures Stream(DataItems<E>(chunks) + more) == Flatten(chunks) + Stream(more)
  {
    var items := DataItems<E>(chunks);
    if chunks == [] {
      assert items + more == more;
    } else {
      StreamOfData<E>(chunks[1..], more);
      assert (items + more)[1..] == DataItems<E>(chunks[1..]) + more;
      assert (items + more)[0] == Data(chunks[0]);
      ConcatAssoc(chunks[0], Flatten(chunks[1..]), Stream(more));
    }
  }

  lemma StreamOfNothing<E>(items: seq<Item<E>>)
    ensures items == [] ==> Stream(items) == []
  {
  }

  /** No octets come after an empty chunk. */
  predicate EmptyOnlyAtEnd(chunks: seq<bytes>) {
    forall i, j :: 0 <= i < j < |chunks| && chunks[i] == [] ==> chunks[j] == []
  }

  /** A finished list of chunks is all stream exactly when no octets follow an empty one. */
  lemma {:induction false} StreamOfChunks<E>(chunks: seq<bytes>)
    ensures var s := Stream(DataItems<E>(chunks) + [Data([])]);
            s <= Flatten(chunks) && (s == Flatten(chunks) <==> EmptyOnlyAtEnd(chunks))
  {
    var items := DataItems<E>(chunks) + [Data([])];
    if chunks == [] {
      assert items == [Data([])];
    } else {
      var tail := chunks[1..];
      assert items[0] == Data(chunks[0]);
      assert items[1..] == DataItems<E>(tail) + [Data([])];
      StreamOfChunks<E>(tail);
      if chunks[0] == [] {
        FlattenEmpty(tail);
        assert EmptyOnlyAtEnd(chunks) <==> forall j :: 0 <= j < |tail| ==> tail[j] == [] by {
          assert forall j :: 0 <= j < |tail| ==> tail[j] == chunks[j + 1];
        }
      } else {
        assert EmptyOnlyAtEnd(chunks) <==> EmptyOnlyAtEnd(tail) by {
          assert forall j :: 0 <= j < |tail| ==> tail[j] == chunks[j + 1];
        }
      }
    }
  }

  lemma {:induction false} FlattenEmpty(chunks: seq<bytes>)
    ensures Flatten(chunks) == [] <==> forall i :: 0 <= i < |chunks| ==> chunks[i] == []
  {
    if chunks != [] {
      FlattenEmpty(chunks[1..]);
      assert forall i :: 0 < i < |chunks| ==> chunks[i] == chunks[1..][i - 1];
    }
  }

  // ---------------------------------------------------------------------
  // Channels fed by a read loop, which returns after an error
  // ---------------------------------------------------------------------

  predicate FailsLast<E>(items: seq<Item<E>>) {
    forall i :: 0 <= i < |items| - 1 ==> !items[i].Fail?
  }

  /** The bytes before the first empty chunk or error. */
  function UpToError<E>(items: seq<Item<E>>): bytes {
    if items == [] || items[0].Fail? || items[0].payload == [] then [] else items[0].payload + UpToError(items[1..])
  }

  /** The reader would go on behind an error; behind the last item there is nothing to go on with. */
  lemma {:induction false} StopsAtError<E>(items: seq<Item<E>>)
    requires FailsLast(items)
    ensures Stream(items) == UpToError(items)
  {
    if items != [] {
      assert forall i :: 0 <= i < |items| - 1 ==> items[1..][i] == items[i + 1];
      StopsAtError(items[1..]);
    }
  }

  lemma {:induction false} DataItemsFailsLast<E>(chunks: seq<bytes>, more: seq<Item<E>>)
    requires FailsLast(more)
    ensures FailsLast(DataItems<E>(chunks) + more)
  {
    var items := DataItems<E>(chunks) + more;
    if chunks == [] {
      assert items == more;
    } else {
      DataItemsFailsLast(chunks[1..], more);
      assert items[1..] == DataItems<E>(chunks[1..]) + more;
      assert forall i :: 1 <= i < |items| ==> items[i] == items[1..][i - 1];
      assert items[0] == Data(chunks[0]);
    }
  }

  /**
   * With errors only at the end of what is fed in, any run hands out exactly the bytes before the
   * first empty chunk or error delivered, and all of them at end of file.
   */
  lemma FedRunRefinesQueue<E>(items: seq<Item<E>>, ops: seq<Op<E>>)
    requires FailsLast(items) && Delivered(ops) <= items && ChannelOrder(ops)
    ensures BytesRead(ops) + Remaining(StateAfter(ops)) == UpToError(Delivered(ops))
    ensures StateAfter(ops).eof && Buffered(StateAfter(ops)) == [] ==> BytesRead(ops) == UpToError(Delivered(ops))
  {
    RunRefinesQueue(ops);
    StopsAtError(Delivered(ops));
  }

  // ---------------------------------------------------------------------
  // Errors on the channel
  // ---------------------------------------------------------------------

  /** The errors among the items before the first empty chunk. */
  function Errors<E>(items: seq<Item<E>>): seq<E> {
    if items == [] || IsEnd(items[0]) then []
    else (if items[0].Fail? then [items[0].error] else []) + Errors(items[1..])
  }

  /** The errors reads of a run returned, in order. */
  function ErrorsSeen<E>(ops: seq<Op<E>>): seq<E> {
    if ops == [] then []
    else
      var front, last := ops[..|ops| - 1], ops[|ops| - 1];
      ErrorsSeen(front) + if last.ReadUpTo? then ErrorOf(Read(StateAfter(front), last.n).outcome) else []
  }

  function ErrorOf<E>(outcome: ReadOutcome<E>): seq<E> { if outcome.Failed? then [outcome.error] else [] }

  function PendingErrors<E>(s: ReaderState<E>): seq<E> { if s.eof then [] else Errors(s.queue) }

  lemma {:induction false} ErrorsAppend<E>(a: seq<Item<E>>, b: seq<Item<E>>)
    ensures Errors(a + b) == if Ended(a) then Errors(a) else Errors(a) + Errors(b)
  {
    if a == [] {
      assert a + b == b;
    } else {
      assert (a + b)[1..] == a[1..] + b;
      ErrorsAppend(a[1..], b);
      EndedCons(a);
    }
  }

  lemma EndedCons<E>(a: seq<Item<E>>)
    requires a != []
    ensures Ended(a) <==> IsEnd(a[0]) || Ended(a[1..])
  {
    if Ended(a) {
      var i :| 0 <= i < |a| && IsEnd(a[i]);
      assert i > 0 ==> a[1..][i - 1] == a[i];
    }
    if Ended(a[1..]) {
      var i :| 0 <= i < |a[1..]| && IsEnd(a[1..][i]);
      assert a[i + 1] == a[1..][i];
    }
  }

  lemma EndedAppend<E>(a: seq<Item<E>>, b: seq<Item<E>>)
    ensures Ended(a + b) <==> Ended(a) || Ended(b)
  {
    if Ended(a) {
      var i :| 0 <= i < |a| && IsEnd(a[i]);
      assert (a + b)[i] == a[i];
    }
    if Ended(b) {
      var i :| 0 <= i < |b| && IsEnd(b[i]);
      assert (a + b)[|a| + i] == b[i];
    }
    if Ended(a + b) {
      var i :| 0 <= i < |a + b| && IsEnd((a + b)[i]);
      if i < |a| { assert a[i] == (a + b)[i]; } else { assert b[i - |a|] == (a + b)[i]; }
    }
  }

  lemma ReadTakesErrors<E>(s: ReaderState<E>, n: nat)
    ensures ErrorOf(Read(s, n).outcome) + PendingErrors(Read(s, n).state) == PendingErrors(s)
  {
  }

  lemma DeliverAddsErrors<E>(s: ReaderState<E>, items: seq<Item<E>>, read: bytes, item: Item<E>)
    requires Accounts(s, items, read) && !s.senderGone
    ensures var t := s.(queue := s.queue + [item]);
            var more := if Ended(items) then [] else Errors([item]);
            PendingErrors(t) == PendingErrors(s) + more && Errors(items + [item]) == Errors(items) + more
  {
    var consumed := items[..|items| - |s.queue|];
    ErrorsAppend(s.queue, [item]);
    ErrorsAppend(items, [item]);
    EndedAppend(consumed, s.queue);
    hide Errors, Ended, Stream, Buffered;
    assert Errors(items) + [] == Errors(items);
  }

  /** Over every run each error on the channel is returned once, in order, or is still to be returned. */
  lemma {:induction false} RunReportsErrors<E>(ops: seq<Op<E>>)
    requires ChannelOrder(ops)
    ensures ErrorsSeen(ops) + PendingErrors(StateAfter(ops)) == Errors(Delivered(ops))
  {
    if ops != [] {
      hide Errors, Accounts, Read, PendingErrors;
      var front, last := ops[..|ops| - 1], ops[|ops| - 1];
      assert ops == front + [last];
      HungUpSnoc(front, last);
      RunReportsErrors(front);
      RunAccounts(front);
      var s := StateAfter(front);
      assert ErrorsSeen(front) + [] == ErrorsSeen(front) && Delivered(front) + [] == Delivered(front);
      match last
      case Deliver(item) =>
        DeliverAddsErrors(s, Delivered(front), BytesRead(front), item);
        ConcatAssoc(ErrorsSeen(front), PendingErrors(s), if Ended(Delivered(front)) then [] else Errors([item]));
      case ReadUpTo(k) =>
        ReadTakesErrors(s, k);
        ConcatAssoc(ErrorsSeen(front), ErrorOf(Read(s, k).outcome), PendingErrors(Read(s, k).state));
      case _ => SamePending(s, StateAfter(ops));
    }
  }

  lemma SamePending<E>(s: ReaderState<E>, t: ReaderState<E>)
    requires t.eof == s.eof && t.queue == s.queue
    ensures PendingErrors(t) == PendingErrors(s)
  {
  }

  lemma {:induction false} ErrorsOfData<E>(chunks: seq<bytes>, more: seq<Item<E>>)
    requires NonEmpty(chunks)
    ensures Errors(DataItems<E>(chunks) + more) == Errors(more)
    ensures Ended(DataItems<E>(chunks) + more) <==> Ended(more)
  {
    var items := DataItems<E>(chunks) + more;
    if chunks == [] {
      assert items == more;
    } else {
      ErrorsOfData(chunks[1..], more);
      assert items[1..] == DataItems<E>(chunks[1..]) + more;
      assert items[0] == Data(chunks[0]);
      EndedCons(items);
    }
  }

  /** End of file without a hang-up comes from an empty chunk among what was delivered. */
  lemma EofMeansEnded<E>(ops: seq<Op<E>>)
    requires ChannelOrder(ops) && !HungUp(ops) && StateAfter(ops).eof
    ensures Ended(Delivered(ops))
  {
    RunAccounts(ops);
    var items, s := Delivered(ops), StateAfter(ops);
    EndedAppend(items[..|items| - |s.queue|], s.queue);
    hide Ended, Stream, Buffered;
  }

  lemma EndedPrefix<E>(a: seq<Item<E>>, b: seq<Item<E>>)
    requires a <= b && Ended(a)
    ensures Ended(b)
  {
    assert b == a + b[|a|..];
    EndedAppend(a, b[|a|..]);
  }
}
