# A model of the RPC stack

This project models the hard core of a small C++ RPC stack and proves what its layers promise, alone and composed:

- the byte layer: the sliding `Buffer`, the length-and-id framing of `RpcCodec`, and the two directions of a `TcpConnection`;
- the wire messages: varints, fields, and the generated `RpcRequest`, `RpcResponse` and `AddRequest`;
- the concurrency kernels: the `ThreadPool` and the functor queue of the `EventLoop`, one step per locked section or system call, with a program counter per thread;
- the call protocol: `RpcServer` built on the two kernels, `RpcChannel` with its pending tables, and a system of one client channel, any number of servers, other clients of those servers, and byte streams cut anywhere;
- the registry cache and the round-robin balancer.

The modules follow the components: `Bytes`, `Codec`, `Stream`, `Buffers`, `Connections`, `Wire`, `Messages`, `ThreadPool`, `EventLoop`, `Server`, `Client`, `System`, `Scenario`, `LoadBalancing`, `Registry`, and `Sequences` for small facts they share.

Objects that the code updates in place are classes (`Buffer`, `TcpConnection`, `LoadBalancer`, `RegistryClient`), and each of their methods is tied to a function or to an abstract value. Concurrent components are transition systems: `Enabled` says when a step can happen, `Apply` what it does, `Runs` and `After` describe every finite interleaving, and the theorems quantify over all of them.

The environment chooses byte counts, chunk boundaries, event order, thread scheduling, spurious wakeups, timeouts, clock readings, HTTP answers and disk outcomes. Host byte order is a parameter. The service methods are arbitrary functions from argument bytes to an outcome.

## Main results

- `Stream.ChunkingIndependence`: the server decodes exactly the frames sent, under every chunking, if and only if every payload is non-empty and under the cap; `Stream.ServerCatchesUp` says exactly when it keeps up with a stream that has empty ones.
- `Stream.ClientLag` and `Stream.ClientCatchesUp`: the client takes one frame a read; how far it has got is given exactly, and so is when it has delivered everything.
- `System.EndToEndMatching` and `System.RepliesAreDispatchResults`: every reply a call gets is the dispatch result of that call's own request.
- `System.AtMostOnce`: over all servers and retries a call is dispatched at most as often as its retry policy allows.
- `Server.ServerConservation`, `Server.EveryRequestAnswered`, `System.RestingSystemAnswered`, `System.RestingClientSettled`: no request is lost or answered twice, down to what the client holds.
- `Server.ComesToRest`: an undisturbed server answers everything in a bounded number of steps.
- `Scenario.SuccessExactly` and `Scenario.OversizedReplyForges`: when a call can succeed at all, and what the cap is needed for.
- `EventLoop.LoopSafety`, `ThreadPool.PoolSafety`, `ThreadPool.ShutdownTerminates`: no lost wakeup, no lost notification, a shutdown that ends with all work done.
- `Client.PendingLifecycle` and `Client.AttemptsBounded`: the life of a pending call, and what became of each attempt.
- `Server.DecodesTheStream` and `Server.ErrorRepliesTell`: the server machine decodes what the stream functions say, and tells its callers when it cannot parse.
- `Messages.RequestRoundTrip`, `Messages.ParseRequestIsMerge` and their companions: parsing undoes serialising, and concatenation merges; `Messages.RequestMeans` and `Messages.Utf8Exactly` say what any bytes mean.
- `Registry.CacheAgreement` and `Registry.ColdStart`, `Registry.ContactBound`, `LoadBalancing.FairExactly`.

## Where the code falls short of what one would expect

Each of these is a statement about the code as it stands, with the exact condition:

- An empty payload is returned as `""`, the value that also means "incomplete". It stops the server's drain loop: a whole frame is left behind exactly when a whole frame other than the last is empty (`Stream.DrainStallsExactly`, at an input `Stream.EmptyPayloadStalls`), and over many reads exactly when there are fewer reads left than drains needed (`Stream.ServeIsPrompt`, `Stream.ServerCatchesUp`). A reply has an empty payload exactly when the method succeeded with a result that serialises to nothing (`Server.EmptyReplyExactly`). The client never sees such a reply (`System.EmptyResultNeverSeen`), so, with a request that can be sent and a reply under the cap, a call can succeed exactly when the method returns a result that is not empty (`Scenario.SuccessExactly`); `Scenario.EmptyResultFails` follows a run to the failed call.
- `packWithId` cuts the size to 32 bits; a frame is decoded back exactly when it is under the 64 MiB cap (`Codec.CodecRoundTrip`). A longer reply makes the client drop what it has read and take the rest for frames, so a result can forge a reply (`Scenario.OversizedReplyForges`); the matching theorems therefore assume replies under the cap.
- The comment above `queueInLoop`'s test promises a wakeup while functors are being called; the code gives none to the thread that constructed the loop. A functor that this thread queues while a batch is being called waits for the timeout of `epoll_wait` (`EventLoop.QueuedWhileCalling`); over every state of the loop the exact condition is `EventLoop.WakeupLostExactly`.
- `fetchFromRegistry` catches `parse_error` only. An array whose elements are not strings throws out of `getAddresses` and leaves no timestamp, so the registry is contacted again within `cacheExpire` exactly after a round with such an answer before any list (`Registry.ContactedAgainExactly`, at an input `Registry.ContactedTooSoon`).
- A fetched list survives on disk exactly when no address is empty or contains a newline (`Registry.AgreementExactly`).
- Round robin is fair for ever exactly when the list size divides 2^32 (`LoadBalancing.FairExactly`).

## Model

| member | source | states |
|---|---|---|
| `Bytes.HtonllIsNetworkOrder` | src/rpc/rpc_codec.h:76-81 | on either host order the memory image of `htonll(v)` is the big-endian form of `v` |
| `Bytes.HtonllInvolution` | src/rpc/rpc_codec.h:82-84 | `htonll` undoes itself, which is what `ntohll` relies on |
| `Bytes.NtohllReadsNetworkOrder` | src/rpc/rpc_codec.h:67-69 | copying eight network bytes into an integer and converting gives the number they spell |
| `Bytes.HtonlIsNetworkOrder` | src/rpc/rpc_codec.h:26-27 | the same for the 4-byte length when it is written |
| `Bytes.NtohlReadsNetworkOrder` | src/rpc/rpc_codec.h:37-39 | and when it is read |
| `Codec.PackWithId` | src/rpc/rpc_codec.h:23-32 | the string built from host integers is the encoded frame on either host order, length cut to 32 bits |
| `Codec.UnpackWithId` | src/rpc/rpc_codec.h:50-72 | every outcome of the decoder; a frame that comes out consumed at least 13 bytes |
| `Codec.CodecRoundTrip` | src/rpc/rpc_codec.h:23-72 | decoding an encoded frame followed by any bytes gives the id, the payload and those bytes, if and only if the frame is under the cap |
| `Codec.UnpackPartial` | src/rpc/rpc_codec.h:51-60 | every strict prefix of a frame is left untouched |
| `Codec.UnpackOversized` | src/rpc/rpc_codec.h:55-66 | a payload over the cap is never returned, whatever the length wraps to |
| `Codec.UnpackExactly` | src/rpc/rpc_codec.h:50-72 | on any buffer whatever: wait, take the frame that stands in front, or throw everything away, each with its exact condition on the announced length |
| `Codec.UnpackFront` | src/rpc/rpc_codec.h:50-72 | one decode of any received part of a stream yields its first frame when that is whole, and otherwise nothing |
| `Codec.PlainRoundTrip` | src/rpc/rpc_codec.h:13-47 | the pair without ids inverts exactly under the cap |
| `Codec.UnpackPlainExactly` | src/rpc/rpc_codec.h:35-47 | the same for the decoder without ids |
| `Stream.DrainFront` | src/rpc/rpc_server.cpp:36-39 | for every stream that fits, a drain of a received part produces the whole frames before the first empty one, consumes that one too, and keeps the rest |
| `Stream.DrainStallsExactly` | src/rpc/rpc_server.cpp:36-39 | a drain leaves a whole frame behind if and only if a whole frame other than the last is empty |
| `Stream.ServerDecodingSafe` | src/rpc/rpc_server.cpp:34-39 | for every stream that fits and every chunking, the frames consumed are a prefix of those sent, those produced are the non-empty ones among them, and re-encoding the consumed ones before the unread bytes gives back what was received |
| `Stream.ChunkingIndependence` | src/rpc/rpc_server.cpp:34-39 | for every split into reads the server produces the list that was sent and keeps no byte, if and only if all payloads are non-empty and under the cap |
| `Stream.ServeIsPrompt` | src/rpc/rpc_server.cpp:34-39 | after any reads the server has consumed every frame that has arrived whole if and only if at no point more drains were needed than reads were left; with no empty payload it always has |
| `Stream.ServerCatchesUp` | src/rpc/rpc_server.cpp:34-39 | it has produced all the non-empty frames of a stream and holds no byte if and only if it kept that pace |
| `Stream.EmptyPayloadStalls` | src/rpc/rpc_server.cpp:39 | at a concrete stream: an empty payload leaves the complete frame behind it undecoded until another read |
| `Stream.ClientDecodingSafe` | src/rpc/rpc_channel.cpp:220-224 | one decode a read, for every stream that fits: the frames consumed are a prefix of those sent, at most one a read; those delivered are the non-empty ones among them; re-encoding the consumed ones before the unread bytes gives back what was received |
| `Stream.ClientLag` | src/rpc/rpc_channel.cpp:220-224 | the number of frames consumed is the least, over all points of the reads, of the frames arrived by then plus the reads since |
| `Stream.ClientCatchesUp` | src/rpc/rpc_channel.cpp:220-224 | the client has delivered all the non-empty frames of a stream and holds no byte if and only if that bound never falls below the length; it has delivered the whole stream if and only if, besides, no payload is empty |
| `Buffers.Buffer.constructor` | src/Buffer.h:13-16 | an empty queue within the space bound |
| `Buffers.Buffer.Retrieve` | src/Buffer.h:27-33 | drops the first bytes of the queue; asking for too many empties it |
| `Buffers.Buffer.RetrieveAll` | src/Buffer.h:35-38 | empties the queue and resets the indices |
| `Buffers.Buffer.RetrieveAsString` | src/Buffer.h:40-44 | returns the first bytes and drops them |
| `Buffers.Buffer.MakeSpace` | src/Buffer.cpp:13-22 | contents unchanged, room for the request on either branch, growth bounded by twice the bytes then held |
| `Buffers.Buffer.Compact` | src/Buffer.cpp:17-20 | the forward overlapping copy keeps the contents, since it moves strictly leftwards |
| `Buffers.Buffer.EnsureWritableBytes` | src/Buffer.h:60-64 | room for the request, contents unchanged |
| `Buffers.Buffer.Append` | src/Buffer.cpp:7-11 | bytes go to the back of the queue; indices stay ordered and the storage stays within 8 + max(initialSize, 2 * largest content ever held) |
| `Buffers.Buffer.ReadFd` | src/Buffer.cpp:25-44 | whatever arrives in the two segments goes to the back of the queue, an error changes nothing, and the same bound holds |
| `Connections.TryUnpackWithId` | src/rpc/rpc_codec.h:50-72 | the in-place decoder does to the buffer what `UnpackWithId` does to the queue of bytes, out-parameter included |
| `Connections.TryUnpack` | src/rpc/rpc_codec.h:35-47 | likewise without an id |
| `Connections.DrainBuffer` | src/rpc/rpc_server.cpp:34-39 | the loop terminates and does what `Drain` does |
| `Connections.TakeFromBuffer` | src/rpc/rpc_channel.cpp:220-224 | the client's single decode |
| `Connections.TcpConnection.constructor` | src/TcpConnection.cpp:7-17 | both directions empty, no write interest |
| `Connections.TcpConnection.Send` | src/TcpConnection.cpp:72-89 | under any short or failed write, accepted bytes followed by queued bytes are all messages sent, and queued output implies write interest |
| `Connections.TcpConnection.HandleWrite` | src/TcpConnection.cpp:47-62 | conservation again; write interest goes off when nothing is queued |
| `Connections.TcpConnection.HandleRead` | src/TcpConnection.cpp:28-45 | data is appended and drained; end of file and errors close, except a read that would block |
| `Wire.VarintRoundTrip` | src/rpc/rpc_header.pb.cc:252-255 | a varint before any bytes is read back, unless it is longer than the reader's limit |
| `Wire.VarintSizeBound` | src/rpc/rpc_header.pb.cc:651-653 | a number takes at most n bytes exactly when it is below 128^n |
| `Wire.VarintShape` | src/rpc/rpc_header.pb.cc:308-346 | a varint spells its number seven bits a byte, lowest first, with the top bit on every byte but the last |
| `Wire.FieldRoundTrip` | src/rpc/rpc_header.pb.cc:314-336 | a written field is read back whole, unless its length prefix is over the accepted maximum |
| `Wire.FieldsRoundTrip` | src/rpc/rpc_header.pb.cc:250-346 | written fields before any bytes are read in front of whatever those bytes hold |
| `Wire.ItemsRoundTrip` | src/rpc/rpc_header.pb.cc:287-299 | fields of every wire type, and groups nested up to the limit and no deeper, are read in front of whatever follows |
| `Wire.TagRefused` | src/rpc/rpc_header.pb.cc:287-299 | field number zero, the reserved wire types and a stray end-group tag fail the parse |
| `Wire.FieldTruncated` | src/rpc/rpc_header.pb.cc:250-306 | a field cut short anywhere fails the parse |
| `Wire.GroupNeedsItsEnd` | src/rpc/rpc_header.pb.cc:287-299 | a group without its own end tag fails the parse |
| `Wire.NumberWraps` | src/rpc/rpc_header.pb.cc:536-560 | a number wider than 64 bits is cut, and one longer than ten bytes fails the parse |
| `Messages.ParseBytes` | src/rpc/rpc_header.pb.cc:250-306 | the loop that reads a tag, stores or skips a field and advances is the fold over the fields read |
| `Messages.Utf8Exactly` | src/rpc/rpc_header.pb.cc:262-272 | the strings accepted are exactly the encodings of sequences of Unicode scalar values |
| `Messages.RequestMeans` | src/rpc/rpc_header.pb.cc:250-306 | what any bytes mean as a request: each field is its last occurrence, all others are skipped, and a name that is not UTF-8 fails |
| `Messages.RequestBytes` | src/rpc/rpc_header.pb.cc:308-346 | the bytes of a request: tags 10, 18 and 26, each with its length, empty fields left out |
| `Messages.ParseRequestIsMerge` | src/rpc/rpc_header.pb.cc:250-405 | parsing a serialised request before any bytes, over any message, is parsing those bytes over the merge; it fails exactly on bad UTF-8 or an oversized field |
| `Messages.RequestRoundTrip` | src/rpc/rpc_header.pb.cc:250-346 | parse after serialise is the identity on UTF-8 strings within the size limit, and fails on all other messages |
| `Messages.RequestConcatenation` | src/rpc/rpc_header.pb.cc:387-405 | parsing two concatenated requests is `MergeImpl` of the second into the first |
| `Messages.ReserialiseRequest` | src/rpc/rpc_header.pb.cc:250-346 | whatever bytes a request came from, writing it again gives bytes with the same meaning |
| `Messages.RequestByteSize` | src/rpc/rpc_header.pb.cc:348-378 | `ByteSizeLong` is the serialised length |
| `Messages.WriteRequest` | src/rpc/rpc_header.pb.cc:308-346 | the advancing target holds the serialised fields in order |
| `Messages.ParseResponseIsMerge` | src/rpc/rpc_header.pb.cc:536-686 | the merge law for responses, with the sign-extended error code |
| `Messages.ResponseMeans` | src/rpc/rpc_header.pb.cc:536-591 | what any bytes mean as a response |
| `Messages.ResponseBytes` | src/rpc/rpc_header.pb.cc:593-628 | the bytes of a response: tags 8, 18 and 26 |
| `Messages.ResponseRoundTrip` | src/rpc/rpc_header.pb.cc:536-628 | a response comes back as it was written when it is parseable, and not at all otherwise |
| `Messages.ResponseConcatenation` | src/rpc/rpc_header.pb.cc:668-686 | concatenation is merge |
| `Messages.ResponseEmptyExactly` | src/rpc/rpc_header.pb.cc:593-628 | only the all-default response serialises to nothing |
| `Messages.ResponseByteSize` | src/rpc/rpc_header.pb.cc:630-659 | `ByteSizeLong` is the serialised length |
| `Messages.NegativeTakesTen` | src/math_service.pb.cc:321-341 | the size used for signed numbers is that of their sign-extended varint, ten bytes when negative |
| `Messages.ParseAddIsMerge` | src/math_service.pb.cc:245-371 | the merge law with presence bits and negative numbers |
| `Messages.AddMeans` | src/math_service.pb.cc:245-291 | what any bytes mean as an AddRequest, presence included |
| `Messages.AddBytes` | src/math_service.pb.cc:294-319 | the bytes of an AddRequest: tags 8 and 16 |
| `Messages.AddRoundTrip` | src/math_service.pb.cc:245-319 | every message, absent and zero fields told apart, is parsed back |
| `Messages.AddConcatenation` | src/math_service.pb.cc:352-371 | concatenation is merge |
| `Messages.AddByteSize` | src/math_service.pb.cc:321-341 | `ByteSizeLong` is the serialised length |
| `Messages.NamedRequestNotEmpty` | src/rpc/rpc_channel.cpp:150-154 | a request that names its service is never empty on the wire, so the channel's own requests never stall a server |
| `ThreadPool.StepKeepsInv` | src/ThreadPool.cpp:4-39 | every step keeps FIFO order, task conservation, no lost notification and the orderly stop |
| `ThreadPool.PoolSafety` | src/ThreadPool.cpp:4-39 | in every run, cut anywhere in two: tasks start in the order in which the steps enqueued them, once; until all workers have exited a non-empty queue has an awake worker or a notification coming; workers exit only after a stop step; a worker that exits in the second part has left no task of the first part unstarted; started tasks are in hand or completed |
| `ThreadPool.ShutdownDecreases` | src/ThreadPool.cpp:7-31 | after stop every step but a late enqueue decreases a measure of tasks, workers and notifications |
| `ThreadPool.ShutdownTerminates` | src/ThreadPool.cpp:22-31 | after any run, a stop and steps that enqueue nothing, no more steps were taken since the stop than there was left to do; a run that cannot go on has all workers exited; and then the tasks completed are exactly those enqueued before the stop |
| `EventLoop.StepKeepsInv` | src/EventLoop.cpp:45-127 | every step keeps posting order and wakeup coverage |
| `EventLoop.LoopSafety` | src/EventLoop.cpp:45-127 | in every interleaving functors run in the order the steps queued them and once; each pending one from another thread has its write to come, a positive counter, or the swap ahead |
| `EventLoop.SleepingLoopHolds` | src/EventLoop.cpp:101-110 | a blocked loop with no wakeup coming holds only functors of its owner thread |
| `EventLoop.WakeupLostExactly` | src/EventLoop.cpp:101-127 | wherever the loop stands when a functor is queued, at its next wait the functor is left behind with no wakeup coming exactly when the owner thread queued it outside the window before the swap and no other wakeup was under way |
| `EventLoop.QueuedWhileCalling` | src/EventLoop.cpp:106-127 | a functor that the loop thread queues while the batch is being called is still pending, with the loop asleep, once the batch is done |
| `Server.EmptyReplyExactly` | src/rpc/rpc_server.cpp:71-115 | a dispatched reply serialises to nothing exactly when the named method succeeded with an empty result |
| `Server.DispatchTells` | src/rpc/rpc_server.cpp:71-115 | each error code names its cause, both ways: missing service, missing method, unparseable arguments, an exception and its text; a result comes only with success, and `WRONG_PROTO` never |
| `Server.DecodesTheStream` | src/rpc/rpc_server.cpp:34-64 | in every run and on whatever bytes, what a connection has decoded and still holds between drains is the stream decoding of its reads |
| `Server.StepKeepsInv` | src/rpc/rpc_server.cpp:34-65 | every step of loop, pool and sockets keeps both kernels' invariants, the correspondence of jobs to decoded frames, the account of replies sent, and that the bytes leaving are the encoded replies |
| `Server.KernelsKept` | src/rpc/rpc_server.cpp:52-63 | the server drives the pool and the loop only by their own steps, and a task finishes as its reply is posted |
| `Server.AcceptedKept` | src/rpc/rpc_server.cpp:36-52 | each parseable decoded frame has one job and each job its frame |
| `Server.AnsweredKept` | src/rpc/rpc_server.cpp:43-62 | on each connection the replies sent are, in order, the executed replies that belong to it, the error replies are, in order, those to the frames that do not parse, and every frame sent echoes the id it answers |
| `Server.ErrorRepliesTell` | src/rpc/rpc_server.cpp:43-49 | in every run with the repository's messages, a frame that does not parse is answered under its id by a reply that reads as WRONG_PROTO, which no dispatched request is answered with |
| `Server.AnsweredOnce` | src/rpc/rpc_server.cpp:34-65 | no two frames sent on a connection answer the same decoded frame |
| `Server.ServerConservation` | src/rpc/rpc_server.cpp:34-65 | in every run each accepted request is, once, queued, in a worker, posted, swapped out, or among the replies sent on its connection; the unparseable frames are answered each once and in order; no decoded frame is answered twice |
| `Server.RestingServerHasAnswered` | src/rpc/rpc_server.cpp:34-65 | the two wakeup protocols together: a server at rest has sent an answer to every frame it has decoded |
| `Server.EveryRequestAnswered` | src/rpc/rpc_server.cpp:34-65 | in every run with a worker each decoded frame is answered at most once, and once the server is at rest exactly once |
| `Server.ComesToRest` | src/rpc/rpc_server.cpp:34-65 | from every reachable state a run that nothing disturbs makes no more moves than there is work left, and one that cannot go on is at rest with every decoded frame answered |
| `Client.StepKeepsInv` | src/rpc/rpc_channel.cpp:101-271 | every step keeps the invariant of ids, tables, promises, closures, attempts and the life of each id while fewer than 2^64 ids have been issued |
| `Client.PendingLifecycle` | src/rpc/rpc_channel.cpp:156-271 | the tables share no key and a key is the id its call is at work on, so nothing stays behind; every issued id is about to be registered, in a table, or has left; each leaves at most once, by a matching reply or by a timeout; each promise is set at most once; each done closure runs at most once, and it has run exactly if a reply was given to it or its call failed before sending |
| `Client.AttemptsBounded` | src/rpc/rpc_channel.cpp:119-184 | at most max(0, maxRetries + 1) attempts, one if not idempotent, each under an id of its own; success only with a NO_ERROR reply to the last, in time; every earlier attempt timed out or was answered with an error; and failure only after as many rounds as the limit, each an attempt that came to nothing or one that found no server |
| `Client.RecordsAreTheRun` | src/rpc/rpc_channel.cpp:101-271 | the calls, the ids with their connections, the replies received and the timeouts counted are those of the steps of the run |
| `Client.CallProgress` | src/rpc/rpc_channel.cpp:119-184 | a call that is not over can take its next step; a waiting sync call takes its promise if it is set and only otherwise times out |
| `System.NodeServerKept` | src/rpc/rpc_server.cpp:34-65 | whatever the server does, for any of its clients, the channel's requests and replies stay in order on its connection |
| `System.NodeFetchKept` | src/rpc/rpc_channel.cpp:220-224 | a read by the client takes the next reply frame or nothing |
| `System.FetchedGenuine` | src/rpc/rpc_channel.cpp:223-236 | a reply the client parses leads by its id to the very frame it answers |
| `System.ConsumedHeardExactly` | src/rpc/rpc_channel.cpp:220-236 | in every reachable state, of the reply frames consumed exactly those that are not empty and parse were handled |
| `System.StepKeepsInv` | src/rpc/rpc_channel.cpp:101-271 | every step of client, streams and servers keeps the end-to-end invariant |
| `System.EndToEndMatching` | src/rpc/rpc_channel.cpp:149-265 | in every reachable state each promise set and each reply given to a closure answers the request sent under its id, on the connection chosen for it, and a successful call got the reply to its last attempt |
| `System.RepliesAreDispatchResults` | src/rpc/rpc_server.cpp:54-62 | with the repository's messages, every delivered reply is `dispatchRequest` of the call's own request |
| `System.DispatchedOnce` | src/rpc/rpc_channel.cpp:149 | two dispatches under one id, on whatever servers, are the same dispatch |
| `System.AtMostOnce` | src/rpc/rpc_channel.cpp:119-127 | in every reachable state a call has been dispatched at most as often as it made attempts, within its retry limit |
| `System.RestingSystemAnswered` | src/rpc/rpc_server.cpp:34-65 | when a server has come to rest, the frame with the genuine reply to every request sent to it has been given to `send` |
| `System.RestingClientSettled` | src/rpc/rpc_channel.cpp:165-265 | and once the client has read all of it: a reply that is not empty and parses is in the promise or was given to the closure, unless the attempt had timed out; any other reply left no trace, and the attempt has timed out or still waits |
| `System.ProtobufSound` | src/rpc/rpc_header.pb.cc:250-628 | the generated messages satisfy what the protocol proofs need of an encoding |
| `System.EmptyResultNeverSeen` | src/rpc/rpc_channel.cpp:220-224 | a call whose method returns a result that is empty on the wire has, in every reachable state, received nothing, not succeeded, and not run its closure |
| `Scenario.SuccessExactly` | src/rpc/rpc_channel.cpp:130-184 | for a request that can be sent and a reply under the cap, some run makes the call succeed if and only if its method returns a result that is not empty on the wire |
| `Scenario.EmptyResultFails` | src/rpc/rpc_channel.cpp:166-184 | a run, step by step, in which the server succeeds, sends its empty reply and comes to rest, the client reads all of it, times out and fails |
| `Scenario.EmptyResultExample` | src/rpc/rpc_server.cpp:112-114 | a concrete service and request for which this happens |
| `Scenario.OversizedReplyForges` | src/rpc/rpc_codec.h:55-59 | without the cap on replies matching fails: a result over it that begins with the bytes of a reply frame makes the call succeed with that reply |
| `Scenario.ForgeExample` | src/rpc/rpc_codec.h:55-59 | a concrete service, request and result for which this happens |
| `LoadBalancing.LoadBalancer.Select` | src/rpc/load_balancer.h:24-28 | an empty list gives `""` and no tick; otherwise the counter's position is taken and the counter steps modulo 2^32 |
| `LoadBalancing.LoadBalancer.SelectTimes` | src/rpc/load_balancer.h:24-28 | consecutive selects visit consecutive positions, through wraps |
| `LoadBalancing.FairBeforeWrap` | src/rpc/load_balancer.h:27 | without a wrap each position is picked floor(m/n) or ceil(m/n) times |
| `LoadBalancing.FairAcrossWrap` | src/rpc/load_balancer.h:27 | across one wrap two counts differ by at most 2 |
| `LoadBalancing.UnfairWindow` | src/rpc/load_balancer.h:27 | if n does not divide 2^32, a window at the wrap picks one position twice and another never |
| `LoadBalancing.FairExactly` | src/rpc/load_balancer.h:27 | no window of any length is off by more than one, if and only if n divides 2^32 |
| `Registry.DiskRoundTrip` | src/rpc/registry_client.cpp:110-135 | a list saved line by line is loaded back if and only if no address is empty or contains a newline |
| `Registry.ReadsLines` | src/rpc/registry_client.cpp:110-118 | whatever a file holds, its non-empty lines are read, an unfinished last one included |
| `Registry.NamesApart` | src/rpc/registry_client.cpp:123-127 | files of different services and temporary files never share a name |
| `Registry.FetchesExactly` | src/rpc/registry_client.cpp:76-98 | a fetch gives the first list that comes within the retries, throws if something throws before it, and is empty if every answer is passed over |
| `Registry.RegistryClient.FetchFromRegistry` | src/rpc/registry_client.cpp:72-99 | at most retryTimes + 1 requests, stopping at the first that lists addresses or throws |
| `Registry.RegistryClient.LoadFromDisk` | src/rpc/registry_client.cpp:101-119 | the non-empty lines of the service's file, or nothing |
| `Registry.RegistryClient.SaveToDisk` | src/rpc/registry_client.cpp:121-141 | write, then rename, with each way either can fail |
| `Registry.RegistryClient.GetAddresses` | src/rpc/registry_client.cpp:29-70 | the three tiers as one transition of cache and files |
| `Registry.RunAgrees` | src/rpc/registry_client.cpp:29-70 | every serialised run keeps memory and disk at the last good list of every service |
| `Registry.CacheAgreement` | src/rpc/registry_client.cpp:29-141 | for a client started on a disk that holds some lists, after any run a call returns the latest non-empty list fetched, or the one the disk held, unless its own fetch throws |
| `Registry.ColdStart` | src/rpc/registry_client.cpp:62-69 | a client started on the files that a run left behind, facing a dead registry, returns the last good list of each service |
| `Registry.NothingKnown` | src/rpc/registry_client.cpp:62-69 | with no usable file and no list to be had the answer is empty, and is cached |
| `Registry.SaveIsAtomic` | src/rpc/registry_client.cpp:126-140 | after any outcome but a torn file, a service's file is what it was or the whole new list, and no other service's file is touched |
| `Registry.AgreementExactly` | src/rpc/registry_client.cpp:62-69 | a fetched list outlives expiry and a dead registry exactly when all its addresses are good |
| `Registry.NewlineBreaksAgreement` | src/rpc/registry_client.cpp:112-116 | an address with a newline comes back as two |
| `Registry.ContactBound` | src/rpc/registry_client.cpp:32-69 | on a monotone clock two rounds for one service are at least `cacheExpire` apart, end to start, unless the earlier threw |
| `Registry.ExpiresExactly` | src/rpc/registry_client.cpp:37-43 | a cached entry is used until it is `cacheExpire` old and not from then on |
| `Registry.ThrowsExactly` | src/rpc/registry_client.cpp:76-92 | a round throws exactly on such an answer |
| `Registry.ContactedAgainExactly` | src/rpc/registry_client.cpp:32-92 | after a round the registry is contacted again exactly when `cacheExpire` has passed since its end, or when, within the retries and before any list, that round got an array whose elements are not strings |
| `Registry.ContactedTooSoon` | src/rpc/registry_client.cpp:81-92 | at concrete answers: two rounds one second apart with an expiry of thirty |

## Left out

- Sockets, epoll, eventfd, `readv` and `connect` calls: they appear as choices of byte counts and event order.
- The fd-to-Channel table, Channel lifetime, `quit_`, closing and destroying connections: a server's connections exist for the whole run.
- Data races at memory level and races while connections are created: steps are locked sections and whole sends.
- The client's own thread scheduling inside `send`: a send appends its frame to the stream in one step, and socket buffers on the request path are one FIFO of bytes.
- Fairness of the scheduler: that runs are bounded and end at rest is proved; that a thread with a step to take is run is not modelled.
- Oversized messages in the theorems of `System`: a channel sends requests whose encoding is parseable, non-empty and under the cap, and replies to it stay under the cap; what other replies can do is shown in `Scenario`, and what the decoder does with them in `Codec`.
- More than 2^64 ids: the protocol theorems hold up to that many.
- The test of `CallMethod` that the controller is a `CustomController`, the controller's flags and texts, and overflow of the retry counter at `INT_MAX`.
- Timeouts of asynchronous calls: the code has none.
- `MathServiceImpl`, descriptors and dynamic casts: methods are arbitrary functions.
- Protobuf arenas, swaps, accessors and unknown-field storage: unknown fields are skipped and not kept; the library's refusal to serialise more than 2 GB is not modelled.
- `MergeImpl` and the serialisers of `RpcResponse` and `AddRequest` as assignments: they are value functions; updating in place is shown for `RpcRequest`'s serialiser and for the parse loop.
- The other three math messages, which repeat `AddRequest`.
- Concurrent calls of `getAddresses`: the registry theorems are about serialised calls; sleeps between retries only move the clock.
- Path separators in service names: file names are plain strings in one directory.
- `RegistryCenter`, `RpcServiceRegistry`, the HTTP and JSON plumbing, the mains, the benchmark, the random balancing branch, and `src/rpc/rpc_server_handler.cpp`.
