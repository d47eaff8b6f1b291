# Verified model of the HTTP/2 server

A Dafny model of a multi-threaded HTTP/2 server written in C++: one acceptor thread hands accepted
sockets to worker threads through lock-free rings and eventfd wake-ups, each worker drives its
connections with epoll, nghttp2 and OpenSSL, and requests are routed by a trie. `dafny verify
dfyconfig.toml` checks everything.

| file | part of the server |
|---|---|
| `Common.dfy` | Option, distinctness of a list |
| `Bits.dfy` | powers of two, bit-wise or, and, shift on naturals |
| `CircularQueue.dfy` | the ring: capacity rounding, index arithmetic, the operations one at a time |
| `Handoff.dfy` | acceptor and one worker, step by step: loads, stores, compare-and-swaps, eventfd calls, a store buffer |
| `Dispatch.dfy` | acceptor, indirection table, any number of workers, session maps and descriptor numbers |
| `LoadBalancer.dfy` | the indirection table object |
| `Router.dfy`, `RouteTable.dfy` | path splitting, the trie, a flat route table as its reference, the listing |
| `Connection.dfy` | one connection: handshake, establishment, byte buffers, epoll interest, disconnection |
| `Streams.dfy` | the nghttp2 callbacks, the stream list and the user-data pointers |
| `Multipart.dfy` | the upload parser |
| `Alpn.dfy` | the walk over a client's protocol list |

## Main results

- **Wake-ups.** Run by run, for the code as written: a sleeping worker with no wake-up coming has
  sockets left behind if and only if it was signalled before its `startup()`, or the acceptor's last
  compare-and-swap on `pending_notify` found it set after the worker's clearing store was issued but
  before it was visible, with the worker's re-check already past (`StrandedIffClaimMissed`, lifted to
  every worker of the whole system by `WorkerStrandedIff`). Runs of both kinds are constructed. The
  release store and acquire load at src/worker.cc:663-665 allow the second; if the re-check waits for
  the clearing store it cannot happen (`FencedClaimsNeverMiss`, `WakeupsNeedTheFence`), and then a
  worker left alone empties its queue within a bounded number of steps.
- **Startup.** `spawn_workers` does not wait for `startup()`. A notification written before it fails,
  leaves `pending_notify` set, and that worker never takes a socket again (`SomeEarlyWriteStrands`,
  `LostBeforeStartupIsFinal`).
- **Whole system.** Accepted connections are conserved and stay in order per worker, every open
  descriptor has exactly one owner, `emplace` never meets an existing key, nothing is closed twice, and
  after every run and under every interleaving the acceptor returns to `accept4` within 2n + 7 steps of
  its own (`AcceptorFinishes`). By then it has asked the workers in cyclic order from the one that the
  indirection table names for the socket, up to the first with room; that worker has the socket and the
  table entry, and nothing else has changed (`SocketIsRouted`).
- **Routing.** After any registrations the trie refines a flat table; lookups, failed and successful
  registrations and the listing round trip are characterised against that table.
- **Connections.** The socket and nghttp2 are objects that keep their own histories. Over every sequence
  of events and replies (`Serve`), what nghttp2 has been fed, followed by the input buffer, is what the
  socket has delivered, and what the socket has taken, followed by the output buffer, is what nghttp2 has
  said. While the connection lives every event is handled, the kernel watches for input and output
  exactly when the connection needs them, and no edge is missed: the last read would have blocked, and so
  would the last write if something is left to send. No byte moves before the handshake and SETTINGS.
- **Uploads.** A well-formed upload sent in any pieces and with any further headers, while any other
  streams run, is stored as it was sent if and only if its content has no CRLF, its name is not empty
  and has no NUL, and the kernel accepts the renaming; otherwise the content up to its first CRLF ends
  up under the name or stays in the temporary file, and nothing changes if that file cannot be opened.
  The request itself reaches the winning route of the registered ones.
- **Rounding.** The capacity rounding returns the nearest power of two if and only if the size is
  between 1 and 2^31; for all sizes it is a power of two or, under an exact condition, 0.
- **ALPN.** The walk is in bounds and ends on every list of a length if and only if the length plus 256
  is below 2^32.

Two places where the code and its text differ: README.md:200 of the repository promises a wildcard
level below parameters, which the router does not have; the comment at src/circular_queue.h:20
promises the nearest power of two without the range above.

## Premises

- The worker's plain stores go through a FIFO store buffer; loads of a memory location otherwise see
  memory. `fenced` says whether the re-check waits for the buffer.
- The kernel returns from `accept4` only numbers that are not open; `epoll_ctl` MOD fails only on
  unregistered descriptors; an eventfd write that is interrupted and retried is one step,
  and a non-blocking eventfd read is not interrupted.
- nghttp2 consumes at most what it is fed, a write takes at most what it is offered, nghttp2 hands over a
  non-negative number of bytes, begins the request headers of a stream once and forgets a stream after its close callback.
- The names of files are not empty and have no NUL, and the temporary name of an upload is not in use.
- There is at least one worker and the indirection table is not empty.

## Model

| member | source | states |
|---|---|---|
| CircularQueues.FillLowBits | src/circular_queue.h:27-30 | the shift-or loop sets every bit below the leading one: the result is 2^bits - 1 |
| CircularQueues.RoundToPow2 | src/circular_queue.h:21-39 | for every 64-bit size, the result is the nearest power of two, ties down, iff 1 <= size <= 2^31; it is 0 iff the size is slotless, and otherwise a power of two up to 2^31 |
| CircularQueues.NextSlot | src/circular_queue.h:15-18 | the masked successor of the slot of element n is the slot of element n + 1 |
| CircularQueues.SlotsDiffer | src/circular_queue.h:15-18 | elements less than a turn apart never share a slot |
| CircularQueues.CircularQueue.constructor | src/circular_queue.h:42-45 | for every 64-bit request: a usable empty queue iff the request is not slotless, of the nearest capacity iff it is between 1 and 2^31 |
| CircularQueues.CircularQueue.IsFull | src/circular_queue.h:59-65 | true iff capacity - 1 elements are stored |
| CircularQueues.CircularQueue.IsEmpty | src/circular_queue.h:67-73 | true iff nothing is stored |
| CircularQueues.CircularQueue.Front | src/circular_queue.h:75-80 | the oldest element |
| CircularQueues.CircularQueue.Push | src/circular_queue.h:82-92 | appends iff fewer than capacity - 1 elements are stored, else changes nothing |
| CircularQueues.CircularQueue.Pop | src/circular_queue.h:94-104 | removes the oldest element iff there is one |
| Handoff.FullTest | src/circular_queue.h:59-65 | the test on a possibly stale head is true iff capacity - 1 slots are in visible use |
| Handoff.TailSlotIsFree | src/circular_queue.h:82-92 | the slot about to be written holds no published socket whose pop is not yet visible |
| Handoff.AcceptorKeepsQueue | src/circular_queue.h:82-92 | every acceptor step keeps the FIFO refinement: nothing live is overwritten, room once seen stays |
| Handoff.WorkerKeepsQueue | src/circular_queue.h:94-104 | every worker and store-buffer step keeps it: nothing unpublished is read |
| Handoff.WorkerKeepsTokens | src/worker.cc:655-673 | every worker step keeps the count of wake-up tokens equal to the flag |
| Handoff.AcceptorKeepsTokens | src/worker.cc:567-587 | every acceptor step does the same |
| Handoff.WorkerKeepsWake | src/worker.cc:654-673 | with the ordered re-check, every worker step keeps published sockets covered by a wake-up |
| Handoff.AcceptorKeepsWake | src/worker.cc:561-590 | every acceptor step does the same |
| Handoff.RunInv | src/worker.cc:561-673 | all of these hold after every run, from any state in which they hold |
| Handoff.TokensConserved | src/worker.cc:567-587 | over every run at most one token exists, the counter is at most 1, and a token exists iff the flag is set and not about to be cleared; a write is lost iff it comes before startup |
| Handoff.StreamConserved | src/worker.cc:592-602 | over every run, sockets taken followed by the queue equal those enqueued, in order; at most capacity - 1 are queued; push never refuses after is_full said no |
| Handoff.DroppedIffEarlyWrite | src/worker.cc:609-629 | an eventfd write has failed iff one was made before startup |
| Handoff.NoLostWakeup | src/worker.cc:654-673 | with the ordered re-check, a sleeping worker with sockets queued has a wake-up recorded or about to be; a quiescent state strands sockets iff a write came before startup |
| Handoff.LostBeforeStartupIsFinal | src/server.cc:161-183 | after a write before startup no continuation makes the worker take a socket |
| Handoff.NextEnqueueAnnounces | src/worker.cc:567-570 | in the code as written, after any run, an enqueue that finds the worker asleep and its clear visible claims the flag, so it wakes the worker |
| Handoff.WorkerStepsDescend | src/worker.cc:654-673 | with the acceptor idle, each worker step decreases a measure |
| Handoff.SettledIffStuck | src/worker.cc:645-673 | the worker has no step left iff it sleeps with nothing recorded; then the queue is empty unless a wake-up was lost |
| Handoff.WorkerRunsSettle | src/worker.cc:654-673 | every run of the worker alone is at most the measure long, and one that cannot go on has emptied the queue |
| Handoff.UnfencedRunStrands | src/worker.cc:663-668 | with release and acquire only, for every capacity above 1, a state is reachable with a socket queued, the worker asleep and no wake-up coming |
| Handoff.EarlyWriteStrands | src/worker.cc:567-629 | the same after a signal before startup, for every capacity above 1 |
| Handoff.RunKeepsMiss | src/worker.cc:561-673 | after every run of the code as written, published sockets are covered by a wake-up unless the last claim missed, and after a miss the worker is going to sleep with nobody to wake it |
| Handoff.StrandedIffClaimMissed | src/worker.cc:561-673 | for every run of the code as written that ends quiescent: sockets are stranded iff a write came before startup or the last claim missed |
| Handoff.FencedClaimsNeverMiss | src/worker.cc:663-671 | a run with the ordered re-check is a run of the code as written in which no claim misses |
| Handoff.SomeClaimMisses | src/worker.cc:663-671 | a run with startup first whose last claim misses and that strands a socket exists for every capacity above 1 |
| Handoff.SomeEarlyWriteStrands | src/server.cc:161-183 | a run that signals before startup and strands a socket exists for every capacity above 1 |
| Handoff.WakeupsNeedTheFence | src/worker.cc:663-671 | over all runs with startup first: none strands a socket iff the re-check is ordered after the clear |
| Dispatch.MoveKeepsChans | src/server.cc:121-131 | enqueue_sock after a successful acquire_worker_index is never refused |
| Dispatch.KeepsControl | src/server.cc:103-134 | every step of acceptor, workers and clients keeps every channel's invariant and everybody's position |
| Dispatch.TracksDesk | src/worker.cc:219-231 | closing, erasing and emplacing keep one owner per open descriptor; emplace meets no existing key |
| Dispatch.OneOwner | src/worker.cc:219-231 | over every run, a descriptor is open iff it has an owner among acceptor, queues, hands and maps, and never has two |
| Dispatch.DescriptorsAreSafe | src/worker.cc:332-354 | whatever step comes after any run, emplace meets no existing key and every close is of an open descriptor |
| Dispatch.ConnectionsConserved | src/server.cc:103-134 | over every run, each accepted socket is rejected or goes to one worker, and each worker's taken and queued sockets are, in order, those given to it |
| Dispatch.TraceIsRun | src/worker.cc:561-673 | every run of the whole system, seen from one worker, is a run of its channel, ending in the same state |
| Dispatch.WorkerStrandedIff | src/worker.cc:561-673 | every worker, every run of the code as written: when quiescent, stranded iff signalled before its startup or the last claim of its flag missed |
| Dispatch.NoWorkerStranded | src/worker.cc:654-673 | with the ordered re-check, a quiescent worker is stranded iff it was signalled before its startup, and then it has taken nothing |
| Dispatch.OwnStepDescends | src/server.h:36-50 | until it listens again the acceptor's next step is enabled and brings it closer; it closes the socket only after all n workers answered full |
| Dispatch.OwnStepsAreBounded | src/server.cc:103-134 | under any interleaving, the acceptor's own steps plus its remaining distance never exceed its distance at the start |
| Dispatch.AcceptorFinishes | src/server.cc:103-134 | after every run, an accepted socket costs the acceptor at most 2n + 7 steps of its own whatever the other threads do, and its next step is always enabled |
| Dispatch.ScanStep | src/server.h:36-50 | a step of a scan asks, or is answered by the real state of the queue: room leads to enqueuing there with the entry updated, full to the next worker, the n-th full to closing |
| Dispatch.EnqueueStep | src/worker.cc:561-590 | a step of enqueue_sock publishes the socket once, to its worker only, and the acceptor listens only after announcing it |
| Dispatch.RunOnItsWay | src/server.cc:103-134 | over every interleaving, the acceptor and its table are where the answers so far put them |
| Dispatch.AnswersDecide | src/server.h:64-80 | the answers given in cyclic order from the table entry make the chosen worker the first with room, and n full ones mean that all were full |
| Dispatch.SocketIsRouted | src/server.cc:121-131 | after every run and interleaving, the worker that got an accepted socket is the first with room in cyclic order from its table entry, which then names it; no other entry or stream changed; if all were full it was rejected and the table kept |
| LoadBalancers.RoundRobinShare | src/server.h:23-29 | each worker's share of the table is the quotient, plus one below the remainder |
| LoadBalancers.SharesAreEven | src/server.h:59-62 | after a reset any two shares differ by at most one |
| LoadBalancers.LoadBalancer.constructor | src/server.h:53-57 | every entry names a worker, in round-robin order |
| LoadBalancers.LoadBalancer.Reset | src/server.h:59-62 | the same for the new number of workers |
| LoadBalancers.LoadBalancer.FindAvailableWorker | src/server.h:36-50 | the scan ends; it returns the first worker after the start observed with room, and -1 only if all were full |
| LoadBalancers.LoadBalancer.AcquireWorkerIndex | src/server.h:64-80 | -1 iff all were observed full; otherwise the first worker with room, which the key's entry then names; no other entry changes and entries stay below the worker count |
| Paths.SplitPathSegments | src/router.cc:4-17 | the loop computes the segments of the path |
| Paths.SegmentsOfJoin | src/router.cc:134-136 | a printed path splits into the segments it was printed from |
| Paths.TrailingSlash | src/router.cc:8-16 | slashes at the end change nothing |
| Routers.InsertKeepsShape | src/router.cc:27-64 | no static key looks like a parameter, and below each parameter node there is one chain with handlers for at most one method |
| Routers.InsertEffect | src/router.cc:27-64 | insertion fails iff some segment is a nameless parameter or a second parameter under one node; success sets exactly its own route, failure none; exactly the parameters before the failure are created |
| Routers.FindCorrect | src/router.cc:66-99 | lookup returns the registered match that is first with static before parameter, with its last captured segment; if there is none, nothing, with the parameter restored |
| Routers.PartsRead | src/router.cc:41-51 | a segment is the parameter of a name iff it is that name in braces; any other stands for itself |
| RouteTables.AddRefines | src/router.cc:19-25 | one registration: the trie answers as the flat table does and stays in agreement |
| RouteTables.AddsRefine | src/router.cc:19-64 | after any registrations the trie agrees with the flat table and has its shape |
| RouteTables.FindResolves | src/router.cc:101-109 | resolve is null iff no registered pattern of the method matches, and otherwise gives the winning route of the table |
| RouteTables.ResolutionIsUnique | src/router.cc:101-109 | the table determines the answer |
| RouteTables.ReachableTableInv | src/router.cc:40-53 | two different registered routes never have parameters at the same place |
| RouteTables.FailedAddChangesNothing | src/router.cc:40-64 | a failed add changes no lookup |
| RouteTables.SuccessfulAddTakesItsPlace | src/router.cc:27-99 | a successful add keeps all other routes and wins exactly the lookups that it matches and that no preferred route wins |
| RouteTables.EmptyHandlerUnregisters | src/router.cc:30-33 | registering an empty handler takes its own route away and no other |
| RouteTables.ListingIsRoutes | src/router.cc:111-140 | a route is printed iff it is registered |
| RouteTables.PrintedReadsBack | src/router.cc:119-136 | a printed route reads back as the same pattern |
| RouteTables.ListingRoundTrip | src/router.cc:111-140 | re-adding the listed routes to a fresh router in any order succeeds and resolves every request alike |
| RouteTables.Router.Add | src/router.cc:19-25 | the router object behaves as registration in the table |
| RouteTables.Router.Resolve | src/router.cc:101-109 | the router object returns what the table resolves to |
| Connections.Connection.constructor | src/session.cc:259-263 | a new session: connecting, no interest recorded or registered, empty buffers, no bytes moved |
| Connections.Connection.UpdateEvent | src/worker.cc:121-129 | recorded and registered interest become the wanted one and stay equal |
| Connections.Connection.UpdateEvents | src/worker.cc:131-183 | output is watched iff nghttp2, OpenSSL or the buffer has some to come; when not disconnecting, input iff nghttp2 or OpenSSL wants it or there is nothing to write; when disconnecting, never |
| Connections.Connection.UpdateHandshakeEvents | src/worker.cc:185-202 | output is watched iff OpenSSL wants to write, input iff it wants to read or does not want to write |
| Connections.Connection.Disconnect | src/worker.cc:219-231 | registration, descriptor and map entry are gone, histories kept |
| Connections.Connection.DoTlsHandshake | src/worker.cc:256-282 | establishing iff SSL_accept succeeded with h2; handshaking with the right interest iff OpenSSL wants more |
| Connections.Connection.FinishEstablishing | src/worker.cc:296-303 | established and at rest iff SETTINGS could be submitted, else dropped |
| Connections.Connection.Start | src/worker.cc:323-355 | a new connection ends dropped, or at rest in the state that the handshake reply and SETTINGS determine; nothing else of it changes |
| Connections.Connection.HandleTlsHandshake | src/worker.cc:284-304 | the same for a continued handshake |
| Connections.Connection.AppendToInputBuffer | src/session.cc:298-301 | after a read delivered data, fed bytes followed by the buffer are again all that was delivered |
| Connections.Connection.AppendToOutputBuffer | src/session.cc:288-291 | after nghttp2 handed over data, taken bytes followed by the buffer are again all that was said |
| Connections.Connection.ConsumeInputBuffer | src/session.cc:303-306 | after nghttp2 consumed n bytes, fed bytes followed by the buffer are again all that was delivered |
| Connections.Connection.ConsumeOutputBuffer | src/session.cc:293-296 | after the socket took n bytes, taken bytes followed by the buffer are again all that was said |
| Connections.Connection.FillInputBuffer | src/worker.cc:414-466 | the loop stops only at a reply that is neither data nor an interruption, which is its result; everything delivered is fed or buffered |
| Connections.Connection.FeedInputBuffer | src/worker.cc:468-482 | everything is fed unless nghttp2 fails, nothing is fed twice, disconnecting iff GOAWAY was met, and at most one turn per byte if nghttp2 makes progress |
| Connections.Connection.FillOutputBuffer | src/worker.cc:484-494 | the loop stops only when nghttp2 wants nothing more or has nothing to say; everything said is taken or buffered |
| Connections.Connection.FlushOutputBuffer | src/worker.cc:496-546 | success iff the socket has taken everything said, again only after a write that would block, shutdown iff a write failed; on a socket that makes progress at most one turn per byte and per interruption |
| Connections.Connection.HandleRead | src/worker.cc:378-396 | the connection is as after reading on values; shutdown iff the last read failed or ended, nghttp2 failed, or a disconnecting session has nothing to send; otherwise at rest |
| Connections.Connection.HandleWrite | src/worker.cc:398-412 | the connection is as after writing on values; shutdown iff the last write failed or a disconnecting session has nothing to send; otherwise at rest |
| Connections.Connection.HandleEvents | src/worker.cc:357-376 | the connection is as after the event on values; a readable or closing event is read; it survives iff there is no close event, no read, write or nghttp2 failed and it is not done disconnecting, and is then at rest: watched as needed, with nothing left undone that no new edge would announce |
| Connections.SurvivesIff | src/worker.cc:357-376 | an event leaves a connection alive iff there is no close event, no broken path and no finished disconnection; only GOAWAY changes the state |
| Connections.EventAdds | src/worker.cc:357-412 | an event adds exactly what it reads and what nghttp2 then hands over, and carries its wish along |
| Connections.LifeGathers | src/worker.cc:643-697 | over every sequence of events: all are handled while the connection lives, and received and produced bytes are those of the events after the handshake that it lived to see |
| Connections.HandshakeEnds | src/worker.cc:284-304 | a handshake goes on while OpenSSL wants more, whatever the events; the reply that ends it establishes the connection iff h2 was selected and SETTINGS submitted, and otherwise drops it |
| Connections.Connection.Dispatch | src/worker.cc:675-691 | events go to handshaking, established or disconnecting sessions only, take them where the machine on values goes, and leave them at rest or gone |
| Connections.Serve | src/worker.cc:643-697 | over every sequence of events and replies: nghttp2 is fed a prefix of what the socket delivered, all of it while the connection lives; the socket takes a prefix of what nghttp2 said; both are what the replies since the handshake hold; every event is handled while it lives, it is then at rest, and SETTINGS is submitted at most once and before any byte |
| Streams.TellingDecides | src/session.cc:103-242 | under any interleaving only a stream's own callbacks that are not silent decide how it ends |
| Streams.StreamsAreIsolated | src/session.cc:103-242 | under any interleaving a stream ends as if only its own callbacks had run |
| Streams.ChunksFillBody | src/session.cc:222-242 | the body is the concatenation of the chunks and nothing else changes |
| Streams.OthersMayCome | src/session.cc:150-203 | other headers, frame callbacks between DATA frames and other streams' callbacks may come anywhere |
| Streams.RequestArrives | src/session.cc:150-242 | a GET or POST request with its pseudo-headers in either order, any further headers and any split of its body leaves a stream with the path and method sent, a parser iff it is POST, and the whole body |
| Streams.RequestIsServed | src/session.cc:85-131 | at the end of such a request the winning route for the method sent gets the whole request and its captured parameter |
| Streams.ClosedIsGone | src/session.cc:134-147 | a closed stream is gone whatever came before and whatever other streams do afterwards |
| Streams.InterleavedUpload | src/session.cc:103-242 | at the end of an upload the handler is given a stream whose writing stores the content up to its first CRLF under its target; as it was sent iff it has no CRLF, its name is a file name and rename succeeds |
| Streams.SessionStreams.constructor | src/session.cc:259-263 | no streams |
| Streams.SessionStreams.OnBeginHeaders | src/session.cc:207-218 | a fresh object is listed and pointed to; the list stays the distinct pointed-to objects |
| Streams.SessionStreams.OnHeader | src/session.cc:150-203 | only the addressed stream's path, method or parser changes, as the header says |
| Streams.SessionStreams.OnDataChunk | src/session.cc:222-242 | only the addressed stream's body grows, by the chunk |
| Streams.SessionStreams.OnFrameReceived | src/session.cc:85-118 | at the end of a stream the handler that its path and method resolve to runs on it alone with the captured parameter, or the 404 reply; its code is returned and the body is cleared |
| Streams.SessionStreams.OnGoAway | src/session.cc:119-126 | disconnection starts and a GOAWAY frame is submitted, streams unchanged |
| Streams.SessionStreams.OnStreamClose | src/session.cc:134-147 | exactly the closed stream's object leaves the list |
| Streams.Deliver | src/session.cc:103-242 | over every orderly sequence of callbacks the objects hold what the reference run says, the list is exactly the live distinct objects, and every GOAWAY received is answered, in order |
| Multipart.AnnouncedBoundary | src/multipart_parser.cc:33-57 | the boundary announced at the end of a content type, or before a parameter or a line end, is the one extracted iff no line end follows behind a parameter |
| Multipart.FirstAnnouncementCounts | src/multipart_parser.cc:33-57 | a boundary is taken only from the first content type that has one; otherwise the parser is unchanged |
| Multipart.CompletesOnlyIf | src/multipart_parser.cc:113-159 | without a boundary nothing changes and nothing is complete; a call completes a file only with a boundary line and a closing boundary behind it in the buffer |
| Multipart.IncompleteOnlyAdds | src/multipart_parser.cc:137-145 | a call that does not complete the file touches the current temporary file only, and only adds to it |
| Multipart.TwoPieces | src/multipart_parser.cc:113-159 | a file received in two calls is stored as both pieces together under its target |
| Multipart.TemporaryNamesDiffer | src/multipart_parser.cc:13-19 | the temporary names of one parser are all different |
| Multipart.UploadRoundTrip | src/multipart_parser.cc:113-159 | writing a printed part completes, forgets the name and puts the content up to its first CRLF under the name, or leaves it in the temporary file; the files are as the upload asks iff there is no CRLF, the name is a file name and rename succeeds |
| Multipart.StoredIff | src/multipart_parser.cc:150-154 | the data is under the name iff rename succeeds and the name is neither empty nor cut by a NUL |
| Multipart.UploadFromTheStart | src/multipart_parser.cc:33-159 | the same from a new parser, including the announcement of the boundary |
| Multipart.Locate | src/multipart_parser.cc:68-111 | on a printed part the three searches find the name, the content up to its first CRLF and the closing boundary |
| Multipart.ReceiveUpload | src/multipart_parser.cc:33-159 | a new parser object, told the boundary and given the body, does the same to the file system |
| Multipart.MultipartFormParser.ReadBoundary | src/multipart_parser.cc:33-57 | the object's state changes as the reference function says |
| Multipart.MultipartFormParser.Receive | src/multipart_parser.cc:113-159 | the object's state and the files change as the reference function says |
| Alpn.SelectNextProto | src/ssl_ctx.cc:13-25 | on every byte string of a length that leaves room for one more step the walk ends in bounds; a returned slice is inside the list and spells the key |
| Alpn.LengthIsExact | src/ssl_ctx.cc:17 | every list of a length is walked in bounds and to an end iff the length plus 256 is below 2^32 |
| Alpn.OfferedIffFound | src/ssl_ctx.cc:18-24 | on every encoded list the walk succeeds iff the name is among those encoded (section 3.1 of RFC 7301) |
| Alpn.AlpnSelectProto | src/ssl_ctx.cc:28-41 | on every well-formed list h2 is selected, as a slice of the list, iff the client offers it |

## Left out

- Alpn.SelectNextProto: asks for lists whose length plus 256 is below 2^32, which Alpn.LengthIsExact shows to be the exact condition; a list in a handshake has at most 65535 bytes.
- CircularQueues.CircularQueue.Push: the operations of the queue object ask for a usable queue; one built for a slotless size has no slots to index.
- LoadBalancers.LoadBalancer.AcquireWorkerIndex: the answers of is_full are a parameter, one per worker; the interleaving with workers is in Dispatch.
- Connections.Connection.FeedInputBuffer: its script is finite; an nghttp2 that forever consumed nothing without failing would make the loop spin, so the bound on its turns asks for progress.
- Connections.Connection.FlushOutputBuffer: the plain and the TLS loop are one method over common reply kinds; a `write` that returns 0 is a turn of the loop.
- Streams.SessionStreams.OnBeginHeaders: asks that nghttp2 has no user data for a stream whose request begins.
- Streams.SessionStreams.OnFrameReceived: what each handler does to its stream and its return code are a parameter; the frames of a reply are not modelled.
- Connections.Connection.Dispatch: an event for a descriptor that is not in the map is only logged by the code and has no step here.
- Routers.Insert and Routers.Find work on values: a node is a datatype, not a heap object, because the children of a node are owned and never shared.
- Handoff: memory orders weaker than a store buffer (reordering of loads, non-multi-copy atomicity) are not modelled.
- The parser's destructor, which renames the temporary files still in its map (src/multipart_parser.cc:8-26).
- Several parts in one body.
- Methods other than GET and POST, for which the method field stays uninitialised; the model reads it as GET.
- Queue copy, move, swap and printing (src/circular_queue.h:47-57, src/circular_queue.h:106-126): not on the running path.
- The file cache and the download handler, response bodies and the 404 page (src/file_cache.cc, src/handler.cc, src/session.cc:24-83): file-system plumbing.
- Options, logging, socket and TLS context setup (src/config_opt.cc, src/main.cc, src/ssl_ctx.cc:43-94).
