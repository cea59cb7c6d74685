# Keli native client: a verified model

A Dafny model of the parts of the Keli native client where state, arithmetic and wire formats meet,
with proofs about every input, every run or every reachable state.

- **Tunnel byte pipe** (`Varint`, `GrpcHunk`, `ByteStream`, `GrpcTunnel`, `Http2Tunnel`): base-128
  varints, protobuf hunks, gRPC length-prefixed messages, splitting by flow-control capacity,
  incremental deframing, the channel and the partial reads. The codecs are inverses, deframing does
  not depend on chunking, the reader refines a byte queue, and together they give the end-to-end
  theorem `GrpcTunnel.EndToEnd`.
- **DNS** (`DnsWire`, `DnsEngine`): the query parser and response builder against an independent
  reader of sections 4.1.1 to 4.1.4 of RFC 1035, and a TTL cache against an uncached resolver.
- **Routing** (`Arith`, `Bitwise`, `Cidr`, `Routing`): prefix masks over 32 and 128 bits, rule-list
  rewrites that keep every decision, and exact checks for when they apply.
- **Client runtime** (`Subscription`, `Runtime`, `ManagedCore`): planning, the
  start/reload/stop/fail machine with rollback, its bounded event log, and the handle around it.
- **Desktop** (`DesktopStatus`, `DesktopService`, `Shell`, `Controller`): the service coupled to the
  running core, the shell whose derived fields gate the commands, and the controller with its store
  over any number of sessions.
- **HTTP front ends** (`HttpHeader`, `HttpProxy`, `OriginForm`, `HttpConnect`): exact head reading,
  request targets in absolute and origin form, and the rewrite from one to the other.

`Common.dfy`, `Text.dfy`, `Arith.dfy` and `Bitwise.dfy` hold shared definitions. Objects the program
updates in place are classes; each method is tied to a function on its state, and the theorems over
whole runs are lemmas about that function. Text is its UTF-8 octets in the network modules, so that white
space, lower-casing and validity are defined octet by octet; subscription texts and tags are Dafny
strings.

## Where the code does not do what one might expect

Each of these is proved, with the exact condition under which the expected property holds:

- An empty HTTP/2 DATA frame ends the stream for the reader, although data may follow
  (`Http2Tunnel.H2EndToEnd`, `Http2Tunnel.EmptyFrameLosesData`).
- An empty gRPC hunk does the same (`GrpcTunnel.MessagesReadIff`,
  `GrpcTunnel.EmptyHunkLosesData`).
- A gRPC body that finishes in the middle of a frame ends quietly: the cut frame is lost and no error
  is returned (`GrpcTunnel.FinishedReadIff`, `GrpcTunnel.CutFrameEndsQuietly`).
- gRPC messages above 16 MiB are written but never read back (`GrpcHunk.FrameRoundTrip`).
- More than 65535 matching addresses wrap the answer count (`DnsWire.ResponseReadsBack`).
- Importing a subscription directly while the core runs decouples the service from it
  (`DesktopService.ImportSoundIff`, `DesktopService.HotImportBreaks`).
- A stop that reports errors leaves the shell showing a running core (`Controller.SyncedIff`,
  `Controller.UncleanStopHappens`).
- Setting the traffic mode of a running core changes the mode shown and not the one it runs in
  (`Controller.ModeShownIff`, `Controller.ModeMisleads`).
- Importing a panel node is not saved (`Controller.PanelImportStoreIff`,
  `Controller.PanelImportIsLost`).
- A panel import into a running core can apply the new text and then fail to switch nodes; the shell
  goes on showing the old nodes (`Controller.ShowsStoredIff`, `Controller.HalfImportHappens`).
- A bare line feed before the first CR LF loses the fields behind it in the rewrite
  (`HttpProxy.FieldsKeptIff`, `HttpProxy.LineFeedLosesField`).

## The managed core

`ManagedCore` models what `crates/keli-desktop/src/managed.rs` calls: the `ManagedMixedController` and
its handle in `crates/keli-cli/src/lib.rs`, that is the start (lines 3952 to 3978 and 4870 to 4935),
the reload (4723 to 4770), the update by plan (4664 to 4721), the health sweep (4523 to 4597) and the
stop (4220 to 4234), over the client runtime model.

## What is taken as a parameter

The subscription parser, `str::parse::<IpAddr>` and the DNS resolver are functions given from
outside; theorems hold for all of them. Flow-control answers, DATA chunks, deliveries, clock values,
fetched texts, dependency reports, and whether binding, building, saving or stopping works are
arguments of the operations, so the run theorems range over every behaviour of the environment.

## Model

| member | source | states |
|---|---|---|
| Varint.EncodeVarint | crates/keli-net-core/src/grpc.rs:459-465 | the loop appends exactly the base-128 groups of the value to the output, low group first |
| Varint.VarintLen | crates/keli-net-core/src/grpc.rs:485-492 | the shift loop counts exactly the octets the encoder writes |
| Varint.DecodeVarintLoop | crates/keli-net-core/src/grpc.rs:467-483 | the loop, with its bitwise operations, shift limit and 64-bit truncation, computes the decoder function and keeps the cursor in bounds on every input |
| Varint.OctetBits | crates/keli-net-core/src/grpc.rs:461-476 | masking, testing and setting the low seven bits and the top bit of an octet, as arithmetic |
| Varint.DigitAbove | crates/keli-net-core/src/grpc.rs:473-473 | the bitwise OR of the value and the shifted digit is their sum, the truncated tenth digit included |
| Varint.EncodedVarintIsVarint | crates/keli-net-core/src/grpc.rs:459-465 | every u64 is written as a varint whose digits denote it |
| Varint.EncodedVarintIsShortest | crates/keli-net-core/src/grpc.rs:459-465 | no varint of the same value is shorter than the one written |
| Varint.VarintBytesLength | crates/keli-net-core/src/grpc.rs:485-492 | the encoding has at most n octets if and only if the value is below 2^(7n) |
| Varint.DecodeVarintIff | crates/keli-net-core/src/grpc.rs:467-483 | decoding at a cursor succeeds if and only if a varint of at most ten octets starts there, and gives its value and end; an independent digit-sum definition is the reference |
| Varint.DecodeVarintAt | crates/keli-net-core/src/grpc.rs:467-483 | any varint decodes to its value at any offset and with any octets after it |
| Varint.VarintRoundTrip | crates/keli-net-core/src/grpc.rs:459-492 | for every u64, at any offset and before any octets, decoding recovers the value and advances by the encoded length, which lies in 1 to 10 |
| GrpcHunk.EncodeHunkMessage | crates/keli-net-core/src/grpc.rs:383-389 | writes tag, length and payload of one hunk |
| GrpcHunk.DecodeHunkMessage | crates/keli-net-core/src/grpc.rs:416-457 | the cursor loop ends on every input and computes the field decoder, errors included |
| GrpcHunk.DecodeHunkOfFields | crates/keli-net-core/src/grpc.rs:416-457 | any list of fields of wire type 0 or 2 decodes to the payload of its last (field 1, wire type 2) entry, or empty without one |
| GrpcHunk.DecodeHunkIff | crates/keli-net-core/src/grpc.rs:416-457 | the decoder accepts exactly the serialised field lists and returns their last data field |
| GrpcHunk.BadFieldRefused | crates/keli-net-core/src/grpc.rs:416-457 | after any good fields the first bad one decides the error: a key or length that is no varint, a wire type other than 0 and 2, or a payload cut short, told apart for data fields |
| GrpcHunk.HunkIsField | crates/keli-net-core/src/grpc.rs:383-389 | an encoded hunk is one length-delimited field number 1 |
| GrpcHunk.HunkRoundTrip | crates/keli-net-core/src/grpc.rs:383-457 | decoding an encoded hunk gives the payload back |
| GrpcHunk.EncodeGrpcHunk | crates/keli-net-core/src/grpc.rs:374-381 | five prefix octets with the 32-bit length, then the hunk |
| GrpcHunk.TakeGrpcMessage | crates/keli-net-core/src/grpc.rs:391-414 | takes one complete frame off the buffer, waits on an incomplete one, refuses compressed and oversized ones, and leaves the buffer alone in those cases |
| GrpcHunk.FrameLayout | crates/keli-net-core/src/grpc.rs:374-381 | a frame is a zero octet, the 32-bit big-endian length and the message |
| GrpcHunk.TakeMessageIff | crates/keli-net-core/src/grpc.rs:391-414 | a message is taken if and only if a complete uncompressed frame of at most 16 MiB stands in front, and what follows is kept |
| GrpcHunk.TakeMessageRefuses | crates/keli-net-core/src/grpc.rs:391-414 | a frame is refused if and only if its prefix is there and says compressed, or longer than 16 MiB |
| GrpcHunk.FrameRoundTrip | crates/keli-net-core/src/grpc.rs:374-414 | a frame is taken back whole, leaving what follows, if and only if its message is at most 16 MiB |
| GrpcHunk.DrainBuffer | crates/keli-net-core/src/grpc.rs:256-275 | the inner loop takes, decodes and sends until a frame is incomplete or bad |
| GrpcHunk.ReadGrpcHunks | crates/keli-net-core/src/grpc.rs:248-284 | the loop over all chunks sends exactly the items the chunk-by-chunk specification lists, and then the ending; PumpEnds and BadFrameReported say what those are |
| GrpcHunk.DrainAppend | crates/keli-net-core/src/grpc.rs:256-275 | draining a longer buffer is draining its front and going on with the residue; an error in the front decides everything |
| GrpcHunk.ResidueBound | crates/keli-net-core/src/grpc.rs:391-414 | after a drain without error no complete frame is left and the residue is shorter than 5 octets plus 16 MiB |
| GrpcHunk.PumpIsWholeBody | crates/keli-net-core/src/grpc.rs:248-284 | chunk-by-chunk deframing equals deframing the concatenation in one go |
| GrpcHunk.ChunkingIndependent | crates/keli-net-core/src/grpc.rs:248-284 | for arbitrary octets, the messages and the first error do not depend on how the body was cut into chunks |
| GrpcHunk.PumpFailsLast | crates/keli-net-core/src/grpc.rs:248-284 | for arbitrary octets and chunking the receiving task sends an error only as its last item |
| GrpcHunk.PumpEnds | crates/keli-net-core/src/grpc.rs:248-284 | for arbitrary octets and chunking: a bad frame ends what is sent; otherwise a finished body ends with the end marker, a broken one with the transport error and an open one with neither |
| ByteStream.SendData | crates/keli-net-core/src/http2.rs:260-291 | for every run of capacity answers and send results: frames carry the data from the front, each using its grant, only the last may end the stream, and success means exactly the data was sent; which failure is reported is determined |
| ByteStream.SendLoop | crates/keli-net-core/src/grpc.rs:286-317 | the loop of both send functions, entered with data |
| ByteStream.PollsMeaning | crates/keli-net-core/src/http2.rs:260-291 | the capacities before the first other answer grant what is positive; that answer, or its absence, decides how the send ends |
| ByteStream.Emit | crates/keli-net-core/src/http2.rs:282-285 | one split and send: the frames so far and what is left still make up the data |
| ByteStream.TunnelReader.SetNonblockingMode | crates/keli-net-core/src/http2.rs:107-109 | only the mode changes |
| ByteStream.TunnelReader.ReadFromBuffer | crates/keli-net-core/src/http2.rs:127-142 | copies as much of the buffered chunk as fits, advances the offset, and drops the chunk when used up; the rest of the caller's buffer is untouched |
| ByteStream.TunnelReader.ReceiveNextReadChunk | crates/keli-net-core/src/http2.rs:144-180 | takes the next item: data is buffered, an empty chunk or a hang-up sets end of file, an error is returned, and no item means waiting or would-block |
| ByteStream.TunnelReader.ReadInto | crates/keli-net-core/src/http2.rs:183-195 | one read delivers what the read specification says into the front of the buffer and changes nothing behind it |
| ByteStream.ReadTakesPrefix | crates/keli-net-core/src/grpc.rs:134-202 | one read takes a prefix of at most n octets off the abstract byte queue; end of file only when nothing is left; it waits, or would block in non-blocking mode, if and only if nothing is there yet; an error is returned if and only if it is next |
| ByteStream.StreamAppend | crates/keli-net-core/src/http2.rs:144-180 | the stream of a longer item list: nothing after an empty chunk counts, and an error item carries no octets |
| ByteStream.RunAccounts | crates/keli-net-core/src/http2.rs:127-195 | over every run of deliveries, hang-ups, mode changes and reads, what was delivered is exactly what was consumed plus what is queued |
| ByteStream.RunRefinesQueue | crates/keli-net-core/src/grpc.rs:134-202 | any run of blocking and non-blocking reads hands out, in order and without loss or repeat, the octets of the delivered items before the first empty chunk, and all of them at end of file; an error is reported and the reader itself would go on behind it |
| ByteStream.RunReportsErrors | crates/keli-net-core/src/grpc.rs:134-202 | over every run, the errors reads have returned and those still queued are exactly the delivered errors before the first empty chunk, in order |
| ByteStream.EofMeansEnded | crates/keli-net-core/src/grpc.rs:151-187 | end of file without a hang-up means an empty chunk was delivered |
| ByteStream.StreamOfData | crates/keli-net-core/src/http2.rs:144-180 | non-empty chunks are all part of the stream |
| ByteStream.StreamOfChunks | crates/keli-net-core/src/http2.rs:171-174 | a finished list of chunks is a stream that is a prefix of its octets, and all of them if and only if no octets follow an empty chunk |
| ByteStream.StopsAtError | crates/keli-net-core/src/http2.rs:144-180 | when an error can only be the last item, the stream is the octets before the first empty chunk or error |
| ByteStream.FedRunRefinesQueue | crates/keli-net-core/src/http2.rs:127-195 | any run fed with such items hands out exactly the octets before the first empty chunk or error delivered, and all of them at end of file |
| GrpcTunnel.GrpcWrite | crates/keli-net-core/src/grpc.rs:205-219 | an empty write sends nothing; any other is carried as one hunk frame, never ending the stream |
| GrpcTunnel.DrainOfWrites | crates/keli-net-core/src/grpc.rs:248-284 | deframing the concatenated frames of any sendable writes gives one item per write and nothing over |
| GrpcTunnel.DrainOfPrefix | crates/keli-net-core/src/grpc.rs:248-284 | any part of the wire received so far yields the first few writes and no error |
| GrpcTunnel.SendsMakeWire | crates/keli-net-core/src/grpc.rs:286-317 | however each hunk is split into frames, the frames concatenate to the wire |
| GrpcTunnel.EndToEnd | crates/keli-net-core/src/grpc.rs:134-219 | for any non-empty writes of at most 16 MiB encoded, any capacity splits, any DATA re-chunking and any interleaving of deliveries and reads, the octets read are a prefix of the concatenated writes, and all of them once everything was delivered and read |
| GrpcTunnel.EndToEndAtEof | crates/keli-net-core/src/grpc.rs:134-219 | once the whole body has arrived, a read returning zero means every written octet has been read, whether or not the sender has gone after the end marker |
| GrpcTunnel.EofMeansFinished | crates/keli-net-core/src/grpc.rs:248-284 | for any part of the wire, any chunking and any run without a hang-up, end of file means the body finished: a broken or open body never looks like an ended stream |
| GrpcTunnel.BrokenIsReported | crates/keli-net-core/src/grpc.rs:277-281 | a body broken by the transport is reported: once everything is consumed the reads have returned exactly the transport error |
| GrpcTunnel.OnlyTransportErrors | crates/keli-net-core/src/grpc.rs:134-284 | no body of sendable writes, whole or cut, makes a read return any other error |
| GrpcTunnel.FinishedReadIff | crates/keli-net-core/src/grpc.rs:134-284 | at the end of a finished body, cut anywhere, every written octet has been read if and only if the whole wire arrived |
| GrpcTunnel.CutFrameEndsQuietly | crates/keli-net-core/src/grpc.rs:248-284 | a frame cut short anywhere in a body that then finishes is lost, and the reader sees a clean end without an error |
| GrpcTunnel.EofMeansAll | crates/keli-net-core/src/grpc.rs:151-187 | end of file without a hang-up is reached only through the end marker |
| GrpcTunnel.GrpcRunRefinesQueue | crates/keli-net-core/src/grpc.rs:134-284 | any run fed by the receiving task, over arbitrary octets, hands out exactly the octets before the first empty chunk or error |
| GrpcTunnel.DrainOfMessages | crates/keli-net-core/src/grpc.rs:248-284 | frames of any messages that hold payloads, empty ones included, yield one item per payload and nothing over |
| GrpcTunnel.BadFrameReported | crates/keli-net-core/src/grpc.rs:248-284 | whatever the chunking and the ending, the first bad frame ends what is sent, its error following the payloads before it |
| GrpcTunnel.MessagesReadIff | crates/keli-net-core/src/grpc.rs:172-187 | a finished body of messages from any sender, however encoded and chunked, is read to its last payload octet if and only if no octets follow an empty payload |
| GrpcTunnel.EmptyHunkLosesData | crates/keli-net-core/src/grpc.rs:178-181 | an empty hunk ahead of data cuts the stream short in every run |
| Http2Tunnel.ReadH2Data | crates/keli-net-core/src/http2.rs:241-258 | every DATA chunk is passed on, empty ones included, then the ending |
| Http2Tunnel.H2EndToEnd | crates/keli-net-core/src/http2.rs:127-195 | a finished body is read to its last octet if and only if no octets follow an empty DATA frame |
| Http2Tunnel.H2ReadsPrefix | crates/keli-net-core/src/http2.rs:127-258 | before the end, the octets read are a prefix of those received |
| Http2Tunnel.H2FailsLast | crates/keli-net-core/src/http2.rs:241-258 | the receiving task sends an error only as its last item |
| Http2Tunnel.H2EofMeansFinished | crates/keli-net-core/src/http2.rs:241-258 | with no empty DATA frame and no hang-up, end of file means the body finished |
| Http2Tunnel.H2BrokenIsReported | crates/keli-net-core/src/http2.rs:241-258 | a body broken by the transport is reported: once everything is consumed the reads have returned exactly that error |
| Http2Tunnel.H2RunRefinesQueue | crates/keli-net-core/src/http2.rs:127-258 | any run fed by it hands out exactly the octets before the first empty chunk or error |
| Http2Tunnel.EmptyFrameLosesData | crates/keli-net-core/src/http2.rs:171-174 | a concrete run where an empty DATA frame ahead of data cuts the stream short |
| DnsWire.ParseDnsQuery | crates/keli-net-core/src/dns.rs:135-196 | the offset and label loops compute the query parser, with every error case |
| DnsWire.ReadLowerLabels | crates/keli-net-core/src/dns.rs:153-177 | the label loop reads and lower-cases the labels, or fails as the reader function does |
| DnsWire.ReadEncodedName | crates/keli-net-core/src/dns.rs:153-177 | the label reader inverts the name encoder at any offset, whatever follows |
| DnsWire.ReadLabelsEncoded | crates/keli-net-core/src/dns.rs:153-177 | whatever the label reader accepts is an encoded name of valid labels |
| DnsWire.ParseEncodedQuery | crates/keli-net-core/src/dns.rs:135-196 | for any labels of 1 to 63 UTF-8 octets and any type code in class IN, the raw question is the exact encoded octets, the name the dot-joined lower-case labels, and octets after the question do not matter |
| DnsWire.ParseQueryIff | crates/keli-net-core/src/dns.rs:135-196 | the parser accepts exactly the encoded class-IN questions under an acceptable header, and determines the question |
| DnsWire.QueryHeaderIff | crates/keli-net-core/src/dns.rs:135-152 | the header is accepted if and only if it is that of a standard query with one question; the RD bit is taken over |
| DnsWire.HeaderErrors | crates/keli-net-core/src/dns.rs:135-152 | which error the header gives: too short, a response, another opcode, another question count, in this order |
| DnsWire.BadLabelRefused | crates/keli-net-core/src/dns.rs:153-177 | after any valid labels the first bad one decides the error: out of bounds, compressed, or not UTF-8 |
| DnsWire.BadQuestionRefused | crates/keli-net-core/src/dns.rs:178-196 | after a good name, a question cut short and a class other than IN are refused as such |
| DnsWire.JoinMeaning | crates/keli-net-core/src/dns.rs:190-190 | the name is the labels with one dot between them |
| DnsWire.LowerAllMeaning | crates/keli-net-core/src/dns.rs:174-174 | each label is lower-cased in its place |
| DnsWire.BuildDnsResponse | crates/keli-net-core/src/dns.rs:198-223 | the building loop writes header, question and one record per matching address; ResponseCarriesAddresses says which those are by type code and octets |
| DnsWire.AppendAnswer | crates/keli-net-core/src/dns.rs:206-221 | one record with its compression pointer, type, class, TTL, length and address octets |
| DnsWire.ResponseReadsBack | crates/keli-net-core/src/dns.rs:198-244 | for every accepted query and address list, an independent RFC 1035 reader gives the same id, RD bit and question, QR set, and one record per matching address in order, each owned by the question name through its pointer, if and only if at most 65535 addresses match |
| DnsWire.ResponseCarriesAddresses | crates/keli-net-core/src/dns.rs:198-244 | read back by codes and octets: a query of type 1 is answered with type 1 records of four octets spelling exactly the IPv4 addresses given, in order; one of type 28 with type 28 records of sixteen octets spelling the IPv6 ones; any other with none |
| DnsWire.ErrorResponseReadsBack | crates/keli-net-core/src/dns.rs:225-244 | an error response reads back as the question alone with the low four bits of the code |
| DnsWire.MatchingIsFilter | crates/keli-net-core/src/dns.rs:84-91 | the answers are the addresses the question type asks for, each as often as given, and no others |
| DnsWire.ReadAnswers | crates/keli-net-core/src/dns.rs:206-221 | the records written are read back one by one, each owner pointer resolving to the question name |
| DnsWire.ReadQuestion | crates/keli-net-core/src/dns.rs:231-244 | the question section of a response is read back as the query's question |
| DnsEngine.Engine.WithPolicies | crates/keli-net-core/src/dns.rs:337-349 | a new engine has an empty cache and the given policies |
| DnsEngine.Engine.ResolveHost | crates/keli-net-core/src/dns.rs:351-403 | one call changes the cache and answers as the specification says: literals, localhost, leak prevention, cache, resolver, family filter |
| DnsEngine.NormalizeIdempotent | crates/keli-net-core/src/dns.rs:424-426 | normalising twice is normalising once, so cache keys agree |
| DnsEngine.RunWrites | crates/keli-net-core/src/dns.rs:286-312 | over every run, each cache entry was written by an earlier call for that host and expires one TTL later |
| DnsEngine.CachedAnswerIsRecent | crates/keli-net-core/src/dns.rs:351-403 | with a changing resolver, every answer or error is the one an uncached engine would have given for the same normalised host by a call less than one TTL earlier |
| DnsEngine.AnswerAge | crates/keli-net-core/src/dns.rs:351-403 | at nondecreasing times that call lies between zero and one TTL back |
| DnsEngine.CacheIsTransparent | crates/keli-net-core/src/dns.rs:351-403 | with a time-independent resolver every result and error over every run is the uncached one |
| DnsEngine.CacheHit | crates/keli-net-core/src/dns.rs:294-312 | a reply is served again, without asking, for exactly one TTL |
| DnsEngine.FilterFamilyMeaning | crates/keli-net-core/src/dns.rs:405-411 | the family filter keeps the permitted addresses and no others |
| DnsEngine.FilterFamilyIs | crates/keli-net-core/src/dns.rs:405-411 | it keeps the whole list for both families and else the one family in order and with repeats |
| DnsEngine.NormalizeHostIs | crates/keli-net-core/src/dns.rs:424-426 | exactly the dots at the end go, and letters become lower case |
| DnsEngine.LiteralAnswer | crates/keli-net-core/src/dns.rs:351-361 | an address literal is answered with itself, or refused for its family |
| DnsEngine.LeakProofAnswer | crates/keli-net-core/src/dns.rs:362-373 | under leak prevention localhost is 127.0.0.1 and then ::1, as far as permitted, and any other name is blocked |
| DnsEngine.ResolverAnswer | crates/keli-net-core/src/dns.rs:375-403 | otherwise the resolver decides: its error, no records, none of the family, or the addresses of the family in order at the asked port |
| DnsEngine.AnswersRespectFamily | crates/keli-net-core/src/dns.rs:351-403 | an answer is never empty, keeps the port and never leaves the permitted family |
| DnsEngine.NoPublicLeak | crates/keli-net-core/src/dns.rs:362-373 | under leak prevention no run consults the resolver or alters the cache, whatever the resolvers and times |
| Cidr.AndHighBits | crates/keli-net-core/src/lib.rs:295-309 | the bitwise AND with a high mask clears the low bits |
| Cidr.MaskValue | crates/keli-net-core/src/lib.rs:295-309 | the shift-and-wrap mask of a p-bit prefix is 2^w - 2^(w-p), p = 0 included |
| Cidr.MaskedBits | crates/keli-net-core/src/lib.rs:286-309 | masking keeps the top bits and clears the rest, for 32 and 128 bits |
| Cidr.MatchesTopBits | crates/keli-net-core/src/lib.rs:156-168 | a block matches exactly the addresses of its family with the same top bits |
| Cidr.NewCidrMatches | crates/keli-net-core/src/lib.rs:131-168 | construction succeeds if and only if the prefix is at most 32 or 128, with the error naming both otherwise, and the block matches exactly the addresses agreeing with the original network on the top p bits |
| Cidr.MatchesInterval | crates/keli-net-core/src/lib.rs:156-168 | equivalently, the aligned interval of 2^(w-p) addresses from the network on |
| Cidr.NestedOrApart | crates/keli-net-core/src/lib.rs:156-168 | any two blocks are nested or disjoint |
| Cidr.WithinIff | crates/keli-net-core/src/lib.rs:156-168 | containment of all addresses is decided by prefix length and network |
| Cidr.EscapesNarrower | crates/keli-net-core/src/lib.rs:156-168 | a wider block always holds an address outside a narrower one |
| Cidr.BlockFits | crates/keli-net-core/src/lib.rs:286-309 | a block does not run past the top of the address space |
| Routing.RouteEngine.constructor | crates/keli-net-core/src/lib.rs:255-260 | no rules and the given default |
| Routing.RouteEngine.AddRule | crates/keli-net-core/src/lib.rs:262-264 | the rule goes to the end |
| Routing.RouteEngine.DecideDestination | crates/keli-net-core/src/lib.rs:270-283 | the loop with early return computes the decision FirstMatchDecides and NoMatchDefault describe |
| Routing.RouteEngine.DecideTarget | crates/keli-net-core/src/lib.rs:266-268 | a bare target is decided at port 0 |
| Routing.FirstMatchDecides | crates/keli-net-core/src/lib.rs:270-283 | the first matching rule decides, by position: its action is taken and its name reported |
| Routing.NoMatchDefault | crates/keli-net-core/src/lib.rs:270-283 | without a match the default action is taken and no rule is reported |
| Routing.ExactMatchIff | crates/keli-net-core/src/lib.rs:211-213 | an exact domain matches exactly the same letters in either case |
| Routing.KeywordMatchIff | crates/keli-net-core/src/lib.rs:214-216 | a keyword matches exactly where its letters occur in either case |
| Routing.SuffixMatchIff | crates/keli-net-core/src/lib.rs:217-223 | a suffix without its leading dots matches exactly its own letters, and anything ending in a dot and them, in either case |
| Routing.DecideAppend | crates/keli-net-core/src/lib.rs:270-283 | a list decides by its front if something there matches, else by the rest |
| Routing.RewriteKeepsDecision | crates/keli-net-core/src/lib.rs:270-283 | dropping a covered rule or swapping adjacent disjoint rules keeps every decision of every destination |
| Routing.RewritesKeepDecisions | crates/keli-net-core/src/lib.rs:270-283 | so does any sequence of such rewrites |
| Routing.CoveredRuleDrops | crates/keli-net-core/src/lib.rs:208-233 | one earlier rule that covers a later one makes dropping the later one sound |
| Routing.AppendChangesDefaultOnly | crates/keli-net-core/src/lib.rs:262-283 | appending a rule changes exactly destinations that took the default and match it, to that rule's action and name |
| Routing.CoverIff | crates/keli-net-core/src/lib.rs:208-233 | for any two matchers of any kinds, a check on the two decides coverage over all destinations, both ways |
| Routing.DisjointIff | crates/keli-net-core/src/lib.rs:208-233 | for any two matchers of any kinds, a check on the two decides whether some destination matches both, both ways, which is when adjacent rules may not be swapped |
| Subscription.PlannedOutboundBuilds | crates/keli-client-core/src/lib.rs:382-548 | building a plan from the new text with the planned outbound succeeds if and only if the report says usable, and then selects that outbound |
| Subscription.BuildPlanIff | crates/keli-client-core/src/lib.rs:536-548 | a plan is built if and only if the text parses and has the asked tag, or any tag; what it holds and which error is given otherwise |
| Subscription.PlanUpdateIff | crates/keli-client-core/src/lib.rs:382-462 | an update is planned if and only if both texts parse, the current one's error coming first; every count, default, selection, flag and reason of the report told from the two tag lists |
| Subscription.ReasonMeaning | crates/keli-client-core/src/lib.rs:398-462 | from a real preflight the no-default reason is unreachable; each other reason and the preserved flag mean what they say |
| Subscription.KeepMeaning | crates/keli-client-core/src/lib.rs:464-484 | the tag filters keep exactly the wanted tags with repeats |
| Subscription.KeepAppend | crates/keli-client-core/src/lib.rs:464-484 | they go through the list in order |
| Subscription.TagDifferences | crates/keli-client-core/src/lib.rs:464-484 | added plus retained are the new tags as multisets; removed tags are exactly the old ones that are gone |
| Subscription.SelectionSurvives | crates/keli-client-core/src/lib.rs:398-462 | a selection survives any chain of updates whose tag lists all contain it |
| Runtime.ClientRuntime.constructor | crates/keli-client-core/src/lib.rs:741-757 | stopped, generation zero, no events |
| Runtime.ClientRuntime.PushEvent | crates/keli-client-core/src/lib.rs:944-954 | appends the event, counts it, remembers a failure's error and trims to 256 |
| Runtime.ClientRuntime.Record | crates/keli-client-core/src/lib.rs:939-942 | sets the status and logs it |
| Runtime.ClientRuntime.Fail | crates/keli-client-core/src/lib.rs:928-937 | clears plan, configuration and start time and logs the failure |
| Runtime.ClientRuntime.Start | crates/keli-client-core/src/lib.rs:800-828 | whole new state of a start, successful or failed; StatusMeaning says what status, plan and configuration that is |
| Runtime.ClientRuntime.Reload | crates/keli-client-core/src/lib.rs:830-875 | whole new state of a reload, with rollback when the configuration is rejected; StatusMeaning says what it amounts to |
| Runtime.ClientRuntime.Stop | crates/keli-client-core/src/lib.rs:877-895 | whole new state of a stop, which does nothing when already stopped |
| Runtime.ClientRuntime.RecordOnly | crates/keli-client-core/src/lib.rs:897-926 | the five record operations |
| Runtime.StepKeepsConsistent | crates/keli-client-core/src/lib.rs:800-942 | every operation keeps: running if and only if plan, configuration and start time are present; the status shows the generation, the plan's outbound, and the address that plan and configuration share; the plan is what rebuilding it gives |
| Runtime.ReachableConsistent | crates/keli-client-core/src/lib.rs:740-955 | so every reachable state has it |
| Runtime.StatusMeaning | crates/keli-client-core/src/lib.rs:800-937 | over every run, told from the operations alone: the runtime runs the configuration last applied and shows its address, its plan's outbound and the number of successes; otherwise it shows the failure the run ended in, or is stopped |
| Runtime.GenerationCounts | crates/keli-client-core/src/lib.rs:800-875 | over every run, the generation is the number of successful starts and reloads |
| Runtime.RejectedReload | crates/keli-client-core/src/lib.rs:830-875 | a rejected reload changes nothing but events, their count and the last error |
| Runtime.StepLogs | crates/keli-client-core/src/lib.rs:897-954 | every operation logs exactly its events on top of any history |
| Runtime.RunLogs | crates/keli-client-core/src/lib.rs:897-954 | over every run the stored events are the last 256 of the full history, the count is its length, and the last error is that of the latest failure event even after trimming |
| Runtime.StartTimeMeaning | crates/keli-client-core/src/lib.rs:800-937 | the start time is when the current running period began: kept by reloads, reset by starts, cleared by stops and failures |
| ManagedCore.HealthyFits | crates/keli-desktop/src/managed.rs:178-198 | a running handle's selection is a supported tag of its configuration |
| ManagedCore.StartedHealthy | crates/keli-desktop/src/managed.rs:107-176 | a start either leaves the core as it was or yields a healthy handle running the given text with the plan built from it, in the asked mode |
| ManagedCore.StartedRuntime | crates/keli-desktop/src/managed.rs:107-176 | a start works if and only if nothing runs, the environment lets it and the text yields a plan; the handle is then at the bound address with a runtime started once |
| ManagedCore.StoppedRuntime | crates/keli-desktop/src/managed.rs:210-213 | a stop always ends the run; only a clean one succeeds and keeps its runtime, stopped, with its generation and last error |
| ManagedCore.ReloadHealthy | crates/keli-desktop/src/managed.rs:178-190 | a reload takes over text and selection together or leaves both |
| ManagedCore.ReloadRecorded | crates/keli-desktop/src/managed.rs:178-190 | a reload works if and only if the text yields a plan, the proxy runtime builds and its lock is held; it is then one more generation, and which last error is left otherwise |
| ManagedCore.UpdateHealthy | crates/keli-desktop/src/managed.rs:192-198 | an update by plan takes over text and planned selection together or leaves both |
| ManagedCore.RecordHealthy | crates/keli-desktop/src/managed.rs:200-208 | recording notes and rejections keeps a handle healthy on its configuration |
| ManagedCore.NotesHealthy | crates/keli-desktop/src/managed.rs:102-105 | so does the whole series of notes of a health sweep |
| ManagedCore.ProbeHealthy | crates/keli-desktop/src/managed.rs:102-105 | a health sweep keeps configuration and selection |
| ManagedCore.ProbeRecorded | crates/keli-desktop/src/managed.rs:102-105 | it logs one event per note and then the summary with its diagnostic, and changes neither status, generation nor last error |
| DesktopService.DesktopRuntimeService.constructor | crates/keli-desktop/src/service.rs:66-93 | an idle service without subscription |
| DesktopService.DesktopRuntimeService.ImportSubscriptionConfig | crates/keli-desktop/src/service.rs:95-109 | whole new state and result of a direct import |
| DesktopService.DesktopRuntimeService.ImportPanelConfig | crates/keli-desktop/src/service.rs:111-139 | whole new state and result of a panel import, given the fetched text |
| DesktopService.DesktopRuntimeService.ImportSubscriptionUrl | crates/keli-desktop/src/service.rs:141-167 | whole new state and result of a URL import, given what was fetched: refused while running, nothing imported after a failed fetch, an error for a bad text |
| DesktopService.DesktopRuntimeService.SelectNode | crates/keli-desktop/src/service.rs:169-190 | whole new state and result of a selection, reloading a running core first |
| DesktopService.DesktopRuntimeService.UpdateSubscriptionConfig | crates/keli-desktop/src/service.rs:192-244 | whole new state and result of an update, running or not |
| DesktopService.DesktopRuntimeService.UpdateSubscriptionUrl | crates/keli-desktop/src/service.rs:246-295 | whole new state and result of a URL update, given what was fetched: whether applied, the report and summary, and the status |
| DesktopService.DesktopRuntimeService.RefreshNodeHealth | crates/keli-desktop/src/service.rs:297-311 | whole new state and resulting summary of a health refresh |
| DesktopService.DesktopRuntimeService.SetTrafficMode | crates/keli-desktop/src/service.rs:340-342 | only the mode changes |
| DesktopService.DesktopRuntimeService.SetListen | crates/keli-desktop/src/service.rs:344-346 | only the address changes |
| DesktopService.DesktopRuntimeService.Start | crates/keli-desktop/src/service.rs:352-386 | whole new state, the mode the core runs in included, and the resulting status or error of a start |
| DesktopService.DesktopRuntimeService.Stop | crates/keli-desktop/src/service.rs:388-393 | whole new state and the resulting status or error of a stop |
| DesktopService.ImportSound | crates/keli-desktop/src/service.rs:95-109 | an import into a stopped service keeps it sound |
| DesktopService.ImportStored | crates/keli-desktop/src/service.rs:95-109 | an import stores the text with its first tag selected; one that does not parse changes nothing |
| DesktopService.SelectSound | crates/keli-desktop/src/service.rs:169-190 | a selection keeps stored and running selection equal |
| DesktopService.SelectOutcome | crates/keli-desktop/src/service.rs:169-190 | a tag of the stored text is stored and reported if and only if no reload is needed or it works |
| DesktopService.SelectRefused | crates/keli-desktop/src/service.rs:169-190 | which error is given for a missing subscription, one that does not parse and a tag it does not have; nothing changes |
| DesktopService.UpdateSound | crates/keli-desktop/src/service.rs:192-244 | an update keeps stored and running text and selection equal |
| DesktopService.UpdateUrlSound | crates/keli-desktop/src/service.rs:246-295 | so does a URL update, applied or not |
| DesktopService.RefreshSound | crates/keli-desktop/src/service.rs:297-311 | so does a health refresh |
| DesktopService.StartSound | crates/keli-desktop/src/service.rs:352-386 | so does a start |
| DesktopService.StepSound | crates/keli-desktop/src/service.rs:95-393 | every operation except a direct import while running keeps: healthy core, stored text and selection equal to the core's, selection a supported tag of the stored text |
| DesktopService.RunSound | crates/keli-desktop/src/service.rs:95-393 | hence over every run without such an import |
| DesktopService.ImportSoundIff | crates/keli-desktop/src/service.rs:95-109 | a direct import keeps it if and only if the core is stopped, the text does not parse, or text and default are what is stored already |
| DesktopService.HotImportBreaks | crates/keli-desktop/src/service.rs:95-109 | a concrete run where a direct import while running and a health refresh leave a selection that is no tag of the stored text |
| DesktopService.RestoreIff | crates/keli-desktop/src/app.rs:464-505 | restoring into a stopped service brings the saved text back, and the saved selection if and only if it fits the text |
| DesktopService.SaveRestore | crates/keli-desktop/src/app.rs:464-517 | whatever a sound run would save, a fresh service restores |
| DesktopService.StartOutcome | crates/keli-desktop/src/service.rs:352-386 | a stopped service with a fitting selection starts whenever the environment lets it, in the stored mode |
| DesktopService.StartIff | crates/keli-desktop/src/service.rs:352-386 | a start works if and only if there is a subscription that yields a plan, TUN mode has its controller, nothing runs and the environment lets it; which error otherwise, and nothing changes then |
| DesktopService.HostStatusMeaning | crates/keli-desktop/src/service.rs:395-403 | the status shown: the core's run state, generation and last error under the stored mode, with the running selection or else the stored one |
| DesktopService.UpdateOutcomeIs | crates/keli-desktop/src/managed.rs:192-198 | an update of a running core is rejected, planned or applied according to the text, its tags and whether the reload works, and which selection it plans |
| DesktopService.UpdateRecorded | crates/keli-desktop/src/managed.rs:192-198 | which generation, last error and last event such an update leaves in the log |
| DesktopService.UpdateStored | crates/keli-desktop/src/service.rs:192-244 | what an update of a running service stores and reports, in each of those cases |
| DesktopService.UpdateStopped | crates/keli-desktop/src/service.rs:192-244 | an update of a stopped service stores the text and carries over the stored selection, or else the first tag of the stored text; it changes nothing if either text does not parse |
| DesktopService.UpdateUrlStored | crates/keli-desktop/src/service.rs:246-295 | a subscription fetched for a running service: when it is applied, what is stored and what is reported |
| DesktopService.UpdateUrlRecorded | crates/keli-desktop/src/service.rs:246-295 | its note is the last event, and a failed fetch the last error |
| DesktopService.PanelImportResult | crates/keli-desktop/src/service.rs:111-139 | the text and selection a service has after a panel import, running or stopped, are those predicted from the stored ones, the tags of both texts and whether the reloads work |
| DesktopService.PanelReport | crates/keli-desktop/src/service.rs:111-139 | a panel import succeeds if and only if the text parses and the reloads it needs work; a success reports what is stored, and a failure stores nothing unless the text was applied before the second reload failed |
| DesktopStatus.RunStateIff | crates/keli-desktop/src/status.rs:225-234 | the run state shown tells the six statuses apart |
| Shell.WithStatus | crates/keli-desktop/src/shell.rs:117-135 | replacing the status, and likewise any other base field, leaves the derived fields equal to their recomputation |
| Shell.DesktopShellState.Apply | crates/keli-desktop/src/shell.rs:98-143 | each action, and likewise each refresh, changes its own fields in place and leaves the derived ones correct |
| Shell.PrimaryMeaning | crates/keli-desktop/src/shell.rs:146-224 | start, or retry, is offered if and only if stopped, or failed, with a usable subscription that has nodes and the system proxy or TUN available if that mode is set; stop if and only if running; busy and blocked otherwise |
| Shell.ReasonGiven | crates/keli-desktop/src/shell.rs:146-224 | the reason named: a missing subscription before missing dependencies, and the last error for a retry |
| Shell.ActionMeaning | crates/keli-desktop/src/shell.rs:98-115 | what each action does to the window and the quit flag, and that it leaves every other base field alone |
| Shell.TrayMeaning | crates/keli-desktop/src/shell.rs:285-338 | the other tray items: the first flips the window, the third opens the diagnostics, the last asks to quit; their check marks |
| Shell.TrayFollowsPrimary | crates/keli-desktop/src/shell.rs:285-338 | the tray's service item is enabled if and only if the primary button acts, and then asks for the same thing |
| Controller.DesktopShellController.constructor | crates/keli-desktop/src/app.rs:236-246 | a new shell over the host, before anything is restored |
| Controller.DesktopShellController.RestorePersistedSubscription | crates/keli-desktop/src/app.rs:464-505 | whole new state: import, then selection, then status |
| Controller.DesktopShellController.PersistCurrentSubscription | crates/keli-desktop/src/app.rs:507-517 | the store takes the current subscription, if there is one and saving works |
| Controller.DesktopShellController.DispatchEvent | crates/keli-desktop/src/app.rs:268-280 | whole new state, host calls and outcome of a dispatched event |
| Controller.DesktopShellController.RefreshStatusAndDependencies | crates/keli-desktop/src/app.rs:252-258 | whole new state of a refresh |
| Controller.DesktopShellController.ImportSubscriptionText | crates/keli-desktop/src/app.rs:282-291 | whole new state and outcome |
| Controller.DesktopShellController.ConnectToPanel | crates/keli-desktop/src/app.rs:293-308 | whole new state and outcome, given the login and the batch text |
| Controller.DesktopShellController.ImportPanelServer | crates/keli-desktop/src/app.rs:310-337 | whole new state and outcome; nothing is saved |
| Controller.DesktopShellController.ImportSubscriptionFromUrl | crates/keli-desktop/src/app.rs:339-354 | whole new state and outcome; a failed fetch is no error and changes nothing |
| Controller.DesktopShellController.UpdateSubscriptionFromUrl | crates/keli-desktop/src/app.rs:356-374 | whole new state and outcome |
| Controller.DesktopShellController.SelectNodeTag | crates/keli-desktop/src/app.rs:376-385 | whole new state and outcome |
| Controller.DesktopShellController.RefreshNodes | crates/keli-desktop/src/app.rs:387-394 | whole new state and outcome |
| Controller.DesktopShellController.SetTrafficModeTo | crates/keli-desktop/src/app.rs:396-400 | whole new state |
| Controller.DesktopShellController.SetListenTo | crates/keli-desktop/src/app.rs:402-406 | whole new state |
| Controller.StepDerived | crates/keli-desktop/src/app.rs:252-462 | every controller operation leaves the derived shell fields equal to their recomputation |
| Controller.RunDerived | crates/keli-desktop/src/app.rs:252-462 | hence over every run of a new controller, whatever its store holds, with a sound core throughout |
| Controller.CallsAreGated | crates/keli-desktop/src/app.rs:425-462 | the host's start is called exactly by a start request on a stopped or failed snapshot with a usable subscription and permitted mode, its stop exactly by a stop request on a running one |
| Controller.BlockedIffNotOffered | crates/keli-desktop-shell/src/actions.rs:141-154 | a start or stop request is refused by the shell if and only if the primary button on the current snapshot would not send it |
| Controller.DispatchState | crates/keli-desktop/src/app.rs:425-462 | host, status, dependencies and outcome after a dispatched event: those the host's start or stop gave, or nothing changed |
| Controller.OutcomeIs | crates/keli-desktop/src/app.rs:252-423 | every other operation on a sound host succeeds exactly when its guards say so, and reports a host error otherwise |
| Controller.DependenciesShown | crates/keli-desktop/src/app.rs:252-462 | the dependencies shown change only with a fresh report: on a refresh, an install, or a start or stop that worked |
| Controller.StatusShown | crates/keli-desktop/src/app.rs:252-462 | after each successful operation that touches the host the shell shows all of its status: selection, generation and last error too |
| Controller.RunWindow | crates/keli-desktop/src/app.rs:268-308 | over every run, window and quit flag follow from the dispatched actions alone, and the panel shown from the logins and views |
| Controller.ShowsStoredIff | crates/keli-desktop/src/app.rs:282-394 | every operation on a sound host leaves the shell showing the nodes of the stored text, if and only if it is not a panel import that applies a text with other nodes and then fails to switch |
| Controller.HalfImportHappens | crates/keli-desktop/src/app.rs:310-323 | a concrete run where the host runs one text and the shell shows the nodes of another |
| Controller.RunShows | crates/keli-desktop/src/app.rs:236-406 | over every run of a new controller without that and without a direct import into a running core, the shell shows the nodes of the stored text |
| Controller.HostRunState | crates/keli-desktop/src/service.rs:395-403 | a host with a sound core reports running exactly while the core runs |
| Controller.StepCore | crates/keli-desktop/src/app.rs:252-462 | every operation keeps the core sound, and only dispatched events change whether it runs |
| Controller.DispatchSync | crates/keli-desktop/src/app.rs:425-462 | a dispatched event either shows the host's new status or leaves it unchanged, except for an unclean stop |
| Controller.SyncedIff | crates/keli-desktop/src/app.rs:252-462 | every operation leaves the shell showing the host's real run state and its stored mode if and only if it is not a stop of a running core that reports errors |
| Controller.UncleanStopHappens | crates/keli-desktop/src/app.rs:446-462 | a concrete run where the core is gone and the shell still shows it running, until a refresh |
| Controller.CallsFitCore | crates/keli-desktop/src/app.rs:425-462 | while in step, start is never called on a running core nor stop on a stopped one |
| Controller.RunSynced | crates/keli-desktop/src/app.rs:252-462 | over every run of a new controller without an unclean stop the shell stays in step with the host |
| Controller.NewControllerReady | crates/keli-desktop/src/app.rs:236-246 | a new controller is consistent, shows the whole status of its host and has the default mode and address, for every store and whether or not it can be read |
| Controller.StepMode | crates/keli-desktop/src/app.rs:396-462 | only setting it changes the stored mode, and only a successful start the mode the core runs in |
| Controller.ModeShownIff | crates/keli-desktop/src/service.rs:340-403 | over every run of a new controller the shell shows the mode last set, which is the mode the running core works in if and only if it is also the mode that was set at the last successful start |
| Controller.ModeMisleads | crates/keli-desktop/src/service.rs:340-342 | a concrete run where a core started as system proxy is shown in TUN mode |
| Controller.StepHost | crates/keli-desktop/src/app.rs:282-406 | each controller operation acts on the host as exactly one service operation, or none |
| Controller.StepHostSound | crates/keli-desktop/src/app.rs:282-406 | and keeps the host sound |
| Controller.StepSaves | crates/keli-desktop/src/app.rs:507-517 | a saving operation saved, or changed nothing that would be saved |
| Controller.StepStore | crates/keli-desktop/src/app.rs:507-517 | under saving operations the store stays current |
| Controller.RunStore | crates/keli-desktop/src/app.rs:507-517 | hence over every run of saving operations, and without a subscription the store is never written |
| Controller.RestartRestores | crates/keli-desktop/src/app.rs:464-517 | from any store whose selection fits its text, after any number of sessions of saving operations, a new controller that can read the store comes up with the text and selection of the latest session that had any |
| Controller.StoreWritten | crates/keli-desktop/src/app.rs:507-517 | the store is only ever written with the subscription the host has |
| Controller.NewControllerKept | crates/keli-desktop/src/app.rs:464-505 | a new controller on any such store starts out sound and with the store current |
| Controller.SessionSaves | crates/keli-desktop/src/app.rs:464-517 | one session of saving operations on any such store leaves there what it ended with, or what was there if it had no subscription |
| Controller.LatestParses | crates/keli-desktop/src/app.rs:464-517 | the text a session ended with parses, so a restart after it brings it back |
| Controller.PanelImportStoreIff | crates/keli-desktop/src/app.rs:310-323 | a panel import, with the core running or stopped, leaves the store current if and only if the store already holds the predicted text and selection |
| Controller.PanelImportIsLost | crates/keli-desktop/src/app.rs:310-323 | a concrete run where a panel import is gone after a restart |
| HttpHeader.Reader.ReadByte | crates/keli-net-core/src/http_proxy.rs:95-97 | one octet is read, or none is left |
| HttpHeader.ReadHeaderFrom | crates/keli-net-core/src/http_proxy.rs:91-104 | the octet loop returns the head or the error and consumes exactly as specified |
| HttpHeader.HeaderEndIff | crates/keli-net-core/src/http_proxy.rs:94-102 | the end found is the first CR LF CR LF after the start |
| HttpHeader.ReadHeaderIff | crates/keli-net-core/src/http_connect.rs:80-95 | a head is returned if and only if it is the shortest prefix ending in CR LF CR LF and at most 16384 octets; exactly it is consumed |
| HttpHeader.LongHeaderRefused | crates/keli-net-core/src/http_connect.rs:80-95 | a longer head is refused after 16384 octets |
| HttpHeader.NoHeaderRefused | crates/keli-net-core/src/http_connect.rs:80-95 | without a complete head within the cap, reading fails where the stream ends, or stops after 16384 octets |
| HttpHeader.WhiteLenIff | crates/keli-net-core/src/http_proxy.rs:58-65 | white space is recognised by its octets exactly where a character with the Unicode property White_Space stands |
| HttpHeader.TailOfHeader | crates/keli-net-core/src/http_proxy.rs:171-189 | what follows any line of a complete head is a list of non-empty lines closed by an empty one |
| HttpHeader.HeaderOfTail | crates/keli-net-core/src/http_proxy.rs:171-189 | such a list behind an unfinished head completes it |
| HttpHeader.EmitTail | crates/keli-net-core/src/http_proxy.rs:178-187 | splitting such a list at CR LF and writing it out again gives the same octets |
| HttpHeader.WordsAreWords | crates/keli-net-core/src/http_proxy.rs:58-65 | every word of a line is non-empty and free of Unicode white space |
| HttpHeader.ThreeWords | crates/keli-net-core/src/http_proxy.rs:58-65 | a line of three words is read back as those words |
| Text.EqIgnoreCaseIff | crates/keli-net-core/src/http_proxy.rs:153-153 | ignoring case is comparing letter by letter, octets that are no letters included |
| Text.LowerMeaning | crates/keli-net-core/src/dns.rs:424-426 | lower-casing changes letters only and leaves none in upper case |
| Text.EncodedTextIsUtf8 | crates/keli-net-core/src/http_proxy.rs:53-53 | every encoding of Unicode scalar values by section 3 of RFC 3629 is accepted as text |
| Text.Utf8IsEncodedText | crates/keli-net-core/src/http_proxy.rs:53-53 | nothing else is |
| HttpProxy.ParseHttpProxyRequest | crates/keli-net-core/src/http_proxy.rs:49-85 | the parser over a reader consumes just the head and gives the request or error that AbsoluteFormIff, OriginFormIff and the refusal lemmas describe |
| HttpProxy.RewriteHeader | crates/keli-net-core/src/http_proxy.rs:171-189 | the line loop writes the specified head |
| HttpProxy.RewriteKeepsTail | crates/keli-net-core/src/http_proxy.rs:171-189 | for every complete head, the rewritten one is the new request line followed by the original octets after the first CR LF |
| HttpProxy.FieldsKeptIff | crates/keli-net-core/src/http_proxy.rs:171-189 | the field lines survive the rewrite if and only if no line feed stands before the first CR LF |
| HttpProxy.LineFeedLosesField | crates/keli-net-core/src/http_proxy.rs:150-189 | the family of heads where they do not: a field behind a bare line feed is seen by the parser and missing from the rewritten head |
| HttpProxy.ParsedParts | crates/keli-net-core/src/http_proxy.rs:49-85 | verb, path and version of a parsed request are non-empty words of valid UTF-8, and the path starts with a slash |
| HttpProxy.RewrittenHead | crates/keli-net-core/src/http_proxy.rs:171-189 | the rewritten head is a complete, valid head that is a fixed point of rewriting |
| HttpProxy.ReparseIff | crates/keli-net-core/src/http_proxy.rs:49-189 | parsing the rewritten head again, with anything behind it, succeeds if and only if it keeps the cap, the path has no scheme separator and the Host field parses; verb, path, version and head are then the same |
| HttpProxy.OriginFormIsStable | crates/keli-net-core/src/http_proxy.rs:49-189 | an origin-form request with a clean first line parses to the very same request again if and only if the cap holds; OriginFormIff says which request that is |
| HttpProxy.ParseHostPortIff | crates/keli-net-core/src/http_proxy.rs:115-139 | an authority is understood as a host and port if and only if, trimmed, it has the bracketed form or the plain form for them, the port given or the default, and the host is not blank |
| HttpProxy.ParseU16Iff | crates/keli-net-core/src/http_proxy.rs:141-148 | a port text is accepted if and only if it is decimal digits with any zeros and at most one plus sign in front, and at most 65535 |
| HttpProxy.AuthorityErrors | crates/keli-net-core/src/http_proxy.rs:115-148 | which error an authority gives: blank, a bracket left open, or a text behind the colon that is no port |
| HttpProxy.FindHostIff | crates/keli-net-core/src/http_proxy.rs:150-159 | the Host value is the trimmed value of the first field line named host in any case, and there is none if and only if no line has that name |
| HttpProxy.AuthorityRoundTrip | crates/keli-net-core/src/http_proxy.rs:115-148 | any written host and port are read back if and only if the host is not blank, has no closing bracket when bracketed, and when not bracketed starts neither with an opening bracket nor with white space |
| HttpProxy.HostRoundTrip | crates/keli-net-core/src/http_proxy.rs:115-148 | a written host, with a port or without, is read back with that port or the default one, if and only if it is legible there |
| HttpProxy.RouteAbsolute | crates/keli-net-core/src/http_proxy.rs:67-114 | an absolute-form target yields its host, its port or 80, and its path or a slash, if and only if, in addition, the host has no slash |
| HttpProxy.AbsoluteFormIff | crates/keli-net-core/src/http_proxy.rs:49-189 | a request in absolute form, with or without port and path, is understood and rewritten to origin form with every field octet kept, if and only if its host is such a host and the head keeps the cap |
| OriginForm.OriginFormIff | crates/keli-net-core/src/http_proxy.rs:49-189 | over the octets of the head: a request line, any fields with other names, a first Host field with a host, an optional port and white space around them, and any tail are understood as that host, that port or 80, the target as path and every field kept, if and only if the host is legible there and the head keeps the cap |
| OriginForm.NoHostRefused | crates/keli-net-core/src/http_proxy.rs:71-73 | in origin form a head without a Host field is refused for that |
| OriginForm.SchemeRefused | crates/keli-net-core/src/http_proxy.rs:67-70 | a target with another scheme before its first separator is refused with that scheme |
| OriginForm.WordCountRefused | crates/keli-net-core/src/http_proxy.rs:54-65 | a request line of more or fewer than three words is refused |
| OriginForm.StreamRefused | crates/keli-net-core/src/http_proxy.rs:49-53 | a stream without a complete head within the cap fails or is too large; a head that is not UTF-8 is refused |
| HttpConnect.ParseHttpConnectRequest | crates/keli-net-core/src/http_connect.rs:44-70 | the parser over a reader gives the specified request or error and consumes just the head |
| HttpConnect.ParseTargetIff | crates/keli-net-core/src/http_connect.rs:97-120 | a target is accepted with a host and port if and only if it has one of two forms around a non-blank host and a port text |
| HttpConnect.TargetErrors | crates/keli-net-core/src/http_connect.rs:97-120 | which error a target gives: neither form, a blank host, no port, in this order |
| HttpConnect.TargetRoundTrip | crates/keli-net-core/src/http_connect.rs:97-120 | any written host and port are read back if and only if the host is not blank and is writable in that form |
| HttpConnect.ConnectRoundTrip | crates/keli-net-core/src/http_connect.rs:44-120 | a CONNECT head for a host and port is understood, whatever fields and octets follow, if and only if the verb is CONNECT in any case, the host is writable and the head keeps the cap |
| HttpConnect.ConnectRefused | crates/keli-net-core/src/http_connect.rs:44-70 | a complete head is refused for its verb first, then for its target |
| HttpConnect.WordCountRefused | crates/keli-net-core/src/http_connect.rs:53-60 | a request line of more or fewer than three words is refused |
| HttpConnect.StreamRefused | crates/keli-net-core/src/http_connect.rs:44-48 | a stream without a complete head within the cap fails or is too large; a head that is not UTF-8 is refused |

## Left out

- TUN devices, packet loops, protocol outbounds, QUIC, WebSocket and SOCKS5 are not part of this model.
- TLS and HTTP/2 handshakes, Tokio runtimes, threads, `Drop` and task aborts are left out; only the chunk sequences they deliver appear. The read tasks' early exit when the receiver is dropped is not modelled, because nothing is read after it.
- gRPC and HTTP/2 path and authority normalisation would only add easy string cases.
- `cursor + len` in the hunk decoder and all lengths, generations and event counts are mathematical integers: overflow of `usize` or `u64` is not modelled. Payload lengths are assumed to fit 64 bits.
- `DnsCache::insert_for_test` is left out: it bypasses the cache invariant.
- Event timestamps, uptime, metrics, display labels, smoke reports and support bundles carry no deep property.
- The panel HTTP client, login data and panel restrictions are left out: the desktop service never gives the core a panel state, so its traffic check always passes.
- Switching to a recommended outbound after a health sweep is left out: the desktop does not ask for it.
- The store is one optional cell that returns what was last saved; JSON and files are left out.
- Web view, HTML, tray and window code is left out, except for which event the primary button and the tray item send.
- In `import_panel_config` and the URL operations the fetch itself is a parameter, and messages inside errors are dropped.
- Controller.RestartRestores: only sessions whose saves succeed, without a direct import while the core runs, and with panel node imports only where the store holds their outcome already, because otherwise the store is behind the host or its selection does not fit its text (PanelImportStoreIff, ImportSoundIff).
