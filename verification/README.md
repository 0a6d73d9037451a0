# WireCommand, modelled and proved

WireCommand is a command server: a client sends a framed `ls`, `pwd` or `cat` request and gets a framed
response. Three servers share one bounded buffer, one framing protocol, one FIFO queue and one command
layer: a single-threaded poll server on a UNIX socket (`src/server_uds.c`), and two servers with one
worker thread per client (`src/server_tcp.c`, `src/server_uds_threaded.c`). This project models those
layers in Dafny and proves what they promise on every run.

`dafny verify dfyconfig.toml` checks the whole project.

## The main results

1. **Poll server accounting and isolation.** `PollState.Inv` holds in every state of every run: for each
   live connection, the bytes received are the encodings of its answered requests, then of its queued
   requests, then its pending input; the bytes sent and the pending output are the encoded answers, in
   order. It also says that queued requests belong to connections in the table even though the kernel
   reuses descriptor numbers, that in the kernel's table each slot's descriptor names the slot's own
   connection, that requests are answered in the order they were enqueued, and that every
   connection there ever was got a prefix of the answers to its own requests and nothing else.
2. **Nobody is lost without a cause.** The record of a run holds, turn by turn, each request taken with what
   the outside did to it, whom the server polled and what was replied, and the logs of the outside grew by
   exactly this record. Of the connections there were before a turn, exactly those are gone after it that
   lost a response of their own to a failure of the outside, or were polled and dropped by their own events
   and replies; over a whole run a connection is gone exactly when some turn ended it so. Connections are
   accepted exactly when poll reports one waiting, until the table is full or the kernel has no more, and the
   new ones are those of the accepted descriptors that became nonblocking. While it is connected, what a
   connection received is exactly what the kernel delivered on its descriptor, and it sent exactly as many
   bytes as the kernel took.
3. **Worker lifecycle over all interleavings.** Every thread is joined exactly once, every accepted
   descriptor is closed exactly once, slots are written only when nobody else can access them, no state is
   a deadlock, and after stop is published every step of anybody brings a finite measure down. A connection
   that comes in while a slot is free gets a worker; one that is closed without a worker was turned away for
   one of the source's three reasons; main and the workers stop only when told to or when a session ends.
4. **One reference service.** The threaded session and the poll server refine the same books
   (`Service.Balanced`). The record of a session holds its polls, calls and replies turn by turn and fixes
   its books; a session that ends because `read` returned 0 has answered and sent everything.
   `Client.Ask` composes the whole exchange: encode, send, any honest connection, receive, print. What the
   client prints is the beginning of its own request's answer, and all of it when it reports success.
5. **Framing.** The parser is characterised by the set of frames alone, and reception does not depend on
   how the stream is cut into reads. The frames are also pinned byte by byte.
6. **Quoting.** The built command line, read by the quoting rules of the POSIX shell, is the fixed program,
   one word equal to the argument byte for byte, and the redirection. Neither the size of that line, a
   `size_t` sum that can wrap around, nor the result of `snprintf`, which fails beyond what an `int` counts,
   is checked by the source. The project proves exactly when the line is sure to be whole, gives arguments
   that the length check admits and for which it is not, and proves that no request holds one.

## How it is modelled

* The operating system is a set of methods that return any reply the call can give (`Kernel`), so each
  proof holds for every kernel behaviour, every cutting of reads, every partial send and every allocation
  failure. `Kernel.Wire` logs each reply with its descriptor, each poll with what it asked for, each accept
  and each allocation; contracts say what was done by what was replied, and every failure has its cause in
  the log.
* What surrounds a command (the child's output and exit status, the allocator, `strerror`) is a `World`
  parameter. An exchange is a request with the world it was executed in, which fixes its answer.
* The classes `Buffer.Buffer` and `Queue.RequestQueue` work on an array and on linked nodes as the source
  does. The session, the client and the poll server run on these objects; `Tables.Tables` holds the poll
  server's, and `PollServer.Server.Linked` ties what they hold to the state the invariant speaks of.
* Branches of the source that cannot be taken appear in the methods as `assert false`: the full-input
  errors (`src/server_uds.c:256-259`, `src/server_tcp.c:233-236`), the client that is not found
  (`src/server_uds.c:389-394`), the accepted client for which there is no slot (`src/server_uds.c:193-201`),
  the polled slot found empty (`src/server_uds.c:514-516`), and the client's protocol error
  (`src/main_client.c:185-189`).
* The worker model covers both threaded servers: `tcp` says whether finished workers are also reaped after
  each accept (`src/server_tcp.c:525`). The session code of `src/server_uds_threaded.c:197-373` and its
  lifecycle code, lines 409-563, have the same steps as the lines of `src/server_tcp.c` cited below.
* The original's documentation says that one mutex protects the worker lifecycle fields. The code writes
  `in_use` and `client_fd` without it. The model follows the code; `Lifecycle.MainWritesIdleSlots` proves
  that these writes meet no other thread.

## Model

| member | source | states |
|---|---|---|
| PollSteps.EveryConnectionServed | src/server_uds.c:207-414 | In every state, every connection live or gone was answered a prefix of the requests its stream parses into, and was sent a prefix of exactly those answers. |
| PollSteps.LiveConnectionLosesNothing | src/server_uds.c:207-313 | A live connection's received stream parses into its answered requests, then its queued ones, with exactly its pending input left over; sent bytes and pending output are the answers. |
| PollSteps.HeadOwner | src/server_uds.c:388-394 | Looking up the head's descriptor always finds a slot, and that slot holds the connection that sent the request, under any reuse of descriptor numbers. |
| PollSteps.OwnChange | src/server_uds.c:207-313 | A change to one slot and its connection, whose books balance again, leaves every other connection's books and past alone. |
| PollSteps.DescriptorNamesConnection | src/server_uds.c:100-120 | In the queue, a live slot's descriptor number and its connection name the same requests, so discarding by descriptor hits no other connection. |
| PollSteps.ArriveKeeps | src/server_uds.c:262-266 | Receiving bytes keeps accounting, isolation, FIFO order and every connection's past. |
| PollSteps.TakeFrameKeeps | src/server_uds.c:226-243 | Moving one complete frame from input to queue keeps them. |
| PollSteps.RespondKeeps | src/server_uds.c:398-412 | Executing the head and placing its response in its owner's empty output keeps them, and moves no other connection's books. |
| PollSteps.DequeueKeeps | src/server_uds.c:398-408 | Taking the head without an answer leaves only that client's books off, which is then removed. |
| PollSteps.DepartKeeps | src/server_uds.c:292-296 | Sending any part of the output keeps them. |
| PollSteps.DepartMore | src/server_uds.c:288-311 | Sends in pieces amount to one send of all their bytes. |
| PollSteps.RemoveKeeps | src/server_uds.c:100-120 | Removing a client discards its requests only, closes its descriptor, and keeps the rest. |
| PollSteps.ConnectKeeps | src/server_uds.c:75-98 | A new connection under any descriptor number not open now, used before or not, starts with empty books and keeps the rest. |
| PollState.DropWaiting | src/queue.c:103-139 | Discarding a client empties its own waiting list and leaves every other connection's unchanged. |
| PollState.DropIsWithout | src/server_uds.c:110-110 | What removal does to the server's queue is the filter the linked list is proved to compute. |
| PollReading.ReadChunk | src/server_uds.c:247-284 | After one more read, queued requests and leftover are those of the whole stream so far, wherever the reads cut it. |
| PollReading.ReadProgress | src/server_uds.c:250-271 | A successful read that is not the last lengthens the queue or else the pending input. |
| PollReading.ReadTurn | src/server_uds.c:250-283 | One turn of the read loop keeps the stream account and takes a strict step down the bound on further reads, or ends the loop for its verdict. |
| Tables.Tables.constructor | src/server_uds.c:463-477 | All buffers are empty, apart from one another, and limited to 65535 bytes for input and 65537 for output; the list is empty. |
| Tables.Tables.Renew | src/server_uds.c:83-89 | Gives one slot fresh empty buffers; nothing else changes. |
| Tables.Tables.Append | src/server_uds.c:263-264 | Appends to one buffer, or changes nothing; every other buffer and the list keep their contents. |
| Tables.Tables.Consume | src/server_uds.c:241-243 | Drops a prefix of one buffer; every other buffer and the list keep their contents. |
| Tables.Tables.AppendResponse | src/server_uds.c:349-372 | Appends a whole response frame to one buffer, exactly when it fits and each append finds the memory it needs, or changes nothing. |
| Tables.Tables.OthersKept | src/server_uds.c:29-33 | When one buffer and its memory change, all others still hold what they held. |
| Tables.Tables.DiscardClient | src/server_uds.c:110-110 | The list becomes the filter of what it was; no buffer changes. |
| PollEvents.AnswerSpends | src/server_uds.c:380-413 | Taking a request, answered or not, never raises what there is to send. |
| PollEvents.HandledOneMore | src/server_uds.c:509-530 | Handling one polled slot leaves the others as they were polled or handled, by replies on their own descriptors. |
| PollEvents.TurnKeeps | src/server_uds.c:494-534 | After handling and accepting, a polled connection is alive exactly unless its events or replies drop it, and every older connection alive was polled, though freed slots and descriptor numbers are reused in the same turn. |
| PollFlow.FlowedMore | src/server_uds.c:509-530 | Handling one more polled connection moves its own history by its own calls, and keeps the account of all others. |
| PollFlow.ReadFlows | src/server_uds.c:247-284 | Reading adds to one history what was delivered, of which only a last chunk without memory can be missing, and only when the client is dropped. |
| PollEvents.WelcomeOne | src/server_uds.c:193-203 | One more accepted descriptor names the next new connection, and those before it still name theirs. |
| PollTrace.TakeHeadKeeps | src/server_uds.c:380-413 | Taking the head of the queue, answered or not, keeps the whole invariant. |
| PollTrace.ReplayKeeps | src/server_uds.c:377-414 | So does taking any number of them. |
| PollTrace.ReplayAlive | src/server_uds.c:377-414 | Taking requests loses exactly the connections whose response was not placed. |
| PollTrace.LostForCause | src/server_uds.c:402-408 | A connection so lost had a request at the head to which the outside gave no answer or no memory. |
| PollTrace.SmoothReplay | src/server_uds.c:377-414 | While the outside fails nothing, the first requests of the queue are answered in turn, to the connections that asked, and nobody is lost. |
| PollTrace.BusyTurn | src/server_uds.c:485-535 | Of the connections before a turn exactly the doomed ones are gone after it: lost before polling, or polled and dropped by their own events and replies; the others there are are exactly the accepted ones. Every polled connection was read from exactly when input was reported, and its history moved by the calls on its own descriptor; no other history moved. |
| PollTrace.NewAlive | src/server_uds.c:170-204 | Every connection accepted in a turn is alive at its end, in a slot under its own descriptor. |
| PollTrace.RunLosesForCause | src/server_uds.c:485-535 | Over a whole run a connection is gone exactly when some turn doomed it. |
| PollTrace.TurnFlows | src/server_uds.c:494-534 | A turn that a connection outlives moves its history by exactly the bytes delivered and taken on the descriptor it was polled under. |
| PollTrace.RunFlows | src/server_uds.c:485-535 | Over a whole run that a connection outlives, it received exactly what the kernel delivered to it and sent exactly as many bytes as it took. |
| PollTrace.AcceptedFlows | src/server_uds.c:170-204 | A connection accepted in some turn, and live later, has received and sent exactly that since. |
| PollServer.Server.constructor | src/server_uds.c:35-44 | The empty server satisfies the invariant. |
| PollServer.Server.FindClient | src/server_uds.c:46-60 | Finds the first slot with the descriptor, or none has it. |
| PollServer.Server.AddClient | src/server_uds.c:75-98 | Succeeds exactly when a slot is free, and then a fresh connection starts in the first free one; otherwise nothing changes. |
| PollServer.Server.RemoveClient | src/server_uds.c:100-120 | The slot is free afterwards, the queue is the order-preserving filter of the old one, other slots and every history are untouched. |
| PollServer.Server.TakeOne | src/server_uds.c:233-243 | On the list and the buffer, one frame moves from input to queue, or nothing changes without memory. |
| PollServer.Server.EnqueueCompleteRequests | src/server_uds.c:207-245 | Queues exactly the requests in the pending input, leaves the incomplete rest, rejects exactly at an invalid frame; stops early only with exactly 256 queued, or exactly when a node was not allocated. |
| PollServer.Server.ReceiveChunk | src/server_uds.c:262-266 | The bytes of a read go to the connection the kernel has for the descriptor, and are parsed, or, without memory, nothing changes. |
| PollServer.Server.ReadOnce | src/server_uds.c:250-283 | One read stops the reading for the reason its reply, the frames or a failed allocation give, or takes a step down the bound; the full-input branch is dead. |
| PollServer.Server.ReadClient | src/server_uds.c:247-284 | Queue gain, leftover and verdict are those of the whole received stream; reading stops for the reason the last reply or a logged failed allocation gives; successful reads are bounded; the queue never exceeds 256. |
| PollServer.Server.WriteClient | src/server_uds.c:286-313 | Exactly the bytes the kernel took leave the output, in order; fails exactly when a send failed, and otherwise stops with empty output or a full socket. |
| PollServer.Server.AnswerHead | src/server_uds.c:343-412 | The head is answered into its owner's output, where it always fits; placed exactly when there is an answer and each append finds the memory it needs, and otherwise the client is removed. |
| PollServer.Server.ProcessQueue | src/server_uds.c:377-414 | Ends with an empty queue or a head blocked by its owner's output; the state is the replay of its record, whose worlds and allocations are those the outside's log gained. |
| PollServer.Server.BuildPollList | src/server_uds.c:416-445 | Lists exactly the live slots, in order, asking to write exactly when output is pending. |
| PollServer.Server.ArmPoll | src/server_uds.c:490-494 | No lost wake-up: on entering poll the queue is empty, or its head's owner is polled for writing; the list holds exactly the live connections left by the replayed record; the listener is polled exactly when a slot is free. |
| PollServer.Server.AcceptClients | src/server_uds.c:170-204 | The new connections are, in order, those of the logged accepts whose descriptor became nonblocking, each named by its descriptor; ends with a full table or when the kernel has no more; accepts nobody only with a full table. |
| PollServer.Server.HandleClient | src/server_uds.c:514-529 | Only this slot and its history change, the history by exactly what was delivered and taken; the slot is freed exactly when an error was reported, reading ended other than on an empty socket, or sending failed. |
| PollServer.Server.HandleEvents | src/server_uds.c:509-530 | Every polled slot still holds the polled connection at its turn, and is then freed exactly by its own events and the last replies on its own descriptor; every history moves by the calls on its own descriptor. |
| PollServer.Server.Turn | src/server_uds.c:485-535 | The record of the turn accounts for every connection: exactly the doomed ones are gone, exactly the accepted ones are new, every polled one was served by its own events and calls, and the logs grew by exactly what it holds. Goes on exactly unless poll fails or the listener reports an error. Without input what there is to send never grows, and a turn that sends a byte and accepts nobody strictly lowers (queue length, total pending output). |
| PollServer.Server.CloseAllClients | src/server_uds.c:447-458 | Every slot is free afterwards; no history changes. |
| PollServer.Server.Run | src/server_uds.c:460-554 | Takes every turn asked for unless a poll fails, each by its record, and the logs grew by exactly the records; without input, all turns together send at most what was pending plus one largest response per queued request, so at most that many send. Afterwards nothing is queued and every accepted descriptor is closed. |
| Workers.WorkerStepKeeps | src/server_tcp.c:282-393 | Any step of any worker keeps the lifecycle invariant. |
| Workers.ReapStepKeeps | src/server_tcp.c:410-450 | Every step of reaping keeps it. |
| Workers.StartStepKeeps | src/server_tcp.c:452-506 | Claiming a slot, creating a thread in it, and giving the slot back on failure keep it. |
| Workers.AcceptStepKeeps | src/server_tcp.c:508-535 | Accepting keeps it, even when the new descriptor number is still stored in a finished slot; so does rejecting. |
| Workers.StopStepKeeps | src/server_tcp.c:65-80 | Publishing stop keeps it. |
| Workers.JoinAllStepKeeps | src/server_tcp.c:537-560 | Every step of joining all workers keeps it. |
| Workers.JoinStep | src/server_tcp.c:437-447 | A joined thread had exited and had not been joined before. |
| Workers.MainStepKeeps | src/server_tcp.c:590-637 | Every step of the main thread keeps it. |
| Workers.ReachableInv | src/server_tcp.c:562-642 | It holds in every state any run can reach, for any number of slots, any interleaving and either server. |
| Lifecycle.JoinedExactlyOnce | src/server_tcp.c:626-637 | When the mutex is about to be destroyed, every thread ever created has exited and was joined exactly once, no slot is in use, nobody holds the mutex. |
| Lifecycle.ClosedExactlyOnce | src/server_tcp.c:508-560 | When the server returns, every accepted descriptor was closed exactly once and none is open. |
| Lifecycle.WorkerClosesItsOwn | src/server_tcp.c:383-387 | A worker's close closes its own, not yet closed connection, whatever the number named before. |
| Lifecycle.FinishedMeansClosed | src/server_tcp.c:282-304 | A slot in use and marked finished belongs to a worker whose connection is closed. |
| Lifecycle.MainWritesIdleSlots | src/server_tcp.c:444-469 | Main writes a slot only when every thread that ever used it has exited and been joined, so a slot is reused only after its join. |
| Lifecycle.WorkerWritesUnderLock | src/server_tcp.c:282-304 | A worker writes only its own slot's finished flag, and only holding the mutex. |
| Lifecycle.NoDeadlock | src/server_tcp.c:410-560 | In any state before the server has returned, some thread can take a step. |
| Lifecycle.EveryStepDescends | src/server_tcp.c:342-393 | Once stop is published, every step of any thread strictly lowers the work left. |
| Lifecycle.ShutdownBounded | src/server_tcp.c:613-640 | From there every run keeps the invariant and is no longer than the work left. |
| Lifecycle.WorkerShutdownBounded | src/server_tcp.c:342-393 | From there no worker takes more than the ten steps of the turn in progress. |
| Lifecycle.ShutdownCompletes | src/server_tcp.c:613-640 | A run that cannot be continued has returned, with every slot empty, every thread joined, every connection closed. |
| Admission.AdmitStarts | src/server_tcp.c:452-500 | A connection admitted while a slot is free gets a worker in the first free slot, whatever the slots before it hold. |
| Admission.ReapIdle | src/server_tcp.c:410-450 | A pass that finds nothing finished goes by and changes nothing. |
| Admission.ConnectionStarts | src/server_tcp.c:508-604 | From the loop head to a worker: a connection that comes in while a slot is free is accepted under its descriptor and served in the first free slot, in either server. |
| Admission.TurnedAwayForCause | src/server_tcp.c:526-534 | On every run, a connection closed without ever having had a worker stayed blocking, had no thread created for it, or met a table with every slot in use. |
| Admission.StopsForCause | src/server_tcp.c:590-611 | On every run, the server shuts down only when the stop flag is seen, poll fails, or the listener reports an error. |
| Admission.WorkerLeavesForCause | src/server_tcp.c:342-387 | On every run, a worker closes its connection only when stop was published or its session ended. |
| Admission.PassFreesFinished | src/server_tcp.c:410-450 | A complete pass of reaping, however interleaved, frees every slot that was finished when it began. |
| Admission.WorkerServesTurn | src/server_tcp.c:46-62 | A worker that finds the mutex free and no stop published gets to another turn of its session, the mutex free again. |
| Admission.WorkerFinishes | src/server_tcp.c:377-393 | A worker whose session ends, finding the mutex free, exits with its slot marked finished and the mutex free. |
| Session.Session.constructor | src/server_tcp.c:306-336 | A new session starts with empty buffers limited to 65535 and 65537 bytes, and balanced books. |
| Session.Session.ProcessRequest | src/server_tcp.c:191-224 | Answers the first complete request into the empty output, where it fits; fails exactly for an invalid frame, a missing error text or memory the output needs and does not get, and then changes nothing visible. |
| Session.Session.Prepare | src/server_tcp.c:346-350 | No lost wake-up: polls for writing with output pending, or for reading with an incomplete frame; leaves exactly on an invalid frame or a request that cannot be answered. |
| Session.Session.ReadClient | src/server_tcp.c:226-257 | What was read, at most 4096 bytes, joins the input and the received stream; fails exactly by its reply or for memory the input needs and does not get; the full-input branch is dead. |
| Session.Session.WriteClient | src/server_tcp.c:259-280 | Exactly what the kernel took moves from the output to the sent stream. |
| Session.Session.HandleEvents | src/server_tcp.c:361-374 | Reads exactly when input is reported and writes exactly when output is, unless reading broke the connection; stays in the loop or leaves it exactly for the reason that poll or the kernel's reply gives. |
| Session.Session.Transfer | src/server_tcp.c:361-368 | The bytes read and kept join input and history, the bytes taken leave the output, nothing else moves; broken exactly by end of file, a failed call, or input that finds no memory. |
| Session.Session.Turn | src/server_tcp.c:346-374 | The record fixes the books after the turn: a pending request is answered, exactly one poll asks for what the books call for, what it reports is acted on. Ends at end of stream exactly when a read met end of file, as rejected exactly at an invalid frame, without a response exactly on a request that cannot be answered. |
| Session.Session.Run | src/server_tcp.c:342-375 | Every turn by its record, and the logs grew by exactly the records; stops only when told to or for the reason of its last turn. Ended at end of stream or at an invalid frame, the session has answered every request before it and sent every answer; ended otherwise, a prefix of both. |
| SessionTrace.TurnMoves | src/server_tcp.c:346-374 | A turn receives exactly what the kernel delivered in it and sends exactly as many bytes as it took. |
| SessionTrace.SessionMoves | src/server_tcp.c:342-375 | So does a whole session, except for a last chunk that found no memory. |
| Service.BalancedServesPrefix | src/server_tcp.c:191-224 | Balanced books account for every request in the received stream: answered, waiting, or still in the input. |
| Service.HonestServesPrefix | src/server_tcp.c:191-280 | A connection that was told only answers to its own stream has a prefix of that stream's requests answered. |
| Service.FrameQueued | src/server_uds.c:233-243 | Taking a frame from the input to the waiting requests keeps the books balanced. |
| Service.HeadAnswered | src/server_tcp.c:210-223 | Answering the first waiting request with drained output keeps the books balanced. |
| Client.ReceiveResponse | src/main_client.c:158-220 | For every cutting of the server's stream: with a complete response in it and no failed call, prints exactly the first response's data; a stream that ends early prints nothing and fails; every other failure has its failed call in the log; the protocol-error branch is dead. |
| Client.WriteAll | src/socket_utils.c:43-69 | The bytes written are as many as the kernel took, a prefix of the data; all of it exactly unless a write was refused. |
| Client.ClientSeesItsAnswer | src/main_client.c:158-220 | Of a connection that received at most one request, a complete response is exactly that request's answer, and the server executed it once. |
| Client.SendRequest | src/main_client.c:302-333 | Encodes a request and sends its whole frame, or says why not: too long, no memory, or a refused write. |
| Client.Ask | src/main_client.c:302-349 | End to end, with any honest connection that received at most the frame: the logs grew by exactly the calls that sent the frame, read the stream and printed; whatever is printed begins the answer to this very request, success prints all of it, and a connection served to the end gives success unless a call of the client fails. |
| Client.AskSession | src/main_client.c:302-349 | The same against a threaded server's session at any point of its life, and success once the session ended at end of stream. |
| Client.AskPollServer | src/main_client.c:302-349 | The same against any connection of the poll server, live or gone, in any state. |
| Client.AnsweredInFull | src/server_tcp.c:342-375 | If a session answered and sent everything, the client's parser completes with that answer. |
| Protocol.DecodeEncodeU16 | src/protocol.c:6-15 | Decoding an encoded 16-bit field gives the value back. |
| Protocol.EncodeDecodeU16 | src/protocol.c:6-15 | Encoding a decoded field gives the bytes back. |
| Protocol.FrameBytes | src/protocol.c:51-69 | A request frame byte by byte: its total length and its argument length most significant byte first, the type 1 for ls, 2 for pwd, 3 for cat, then the argument. |
| Protocol.ResponseFrameBytes | src/protocol.c:143-156 | A response frame byte by byte: the data length most significant byte first, then the data. |
| Protocol.ParseBytes | src/protocol.c:87-117 | Each verdict of the parser, and the request it finds, read off the bytes: type, consistent lengths, and enough data. |
| Protocol.ParseFrame | src/protocol.c:72-118 | Parsing an encoded request plus any suffix gives that request and its size. |
| Protocol.CompleteConsumesFrame | src/protocol.c:104-117 | A COMPLETE parse consumes exactly the encoder's bytes for the parsed request. |
| Protocol.VerdictStable | src/protocol.c:72-118 | COMPLETE and INVALID verdicts survive any bytes appended later. |
| Protocol.StrictPrefixNeedsMore | src/protocol.c:87-110 | Every strict prefix of a valid frame gives NEED_MORE. |
| Protocol.VerdictCharacterised | src/protocol.c:72-118 | Each verdict if and only if: a frame is a prefix; the data is short of a header or a strict prefix of a frame; neither. |
| Protocol.IncompleteIsShort | src/server_uds.c:252-259 | Input that is not yet a frame is shorter than the input limit, so there is room to read. |
| Protocol.ParseResponseFrame | src/protocol.c:158-189 | Parsing an encoded response plus any suffix gives that response and its size. |
| Protocol.CompleteConsumesResponseFrame | src/protocol.c:180-188 | A COMPLETE response parse consumes exactly the encoder's bytes. |
| Protocol.ResponsePrefixNeedsMore | src/protocol.c:172-182 | Every strict prefix of a response frame gives NEED_MORE. |
| Protocol.ResponseIncompleteIsShort | src/main_client.c:185-189 | The response parser never rejects, and incomplete data is shorter than the client's buffer. |
| Protocol.ResponseStreamInjective | src/protocol.c:120-189 | A stream of responses determines the responses. |
| Protocol.DrainAccounts | src/server_uds.c:207-245 | Parsing to the end loses and invents nothing: the stream is the extracted frames and the rest. |
| Protocol.DrainUnique | src/server_uds.c:207-245 | Conversely, any split into frames and an incomplete or invalid rest is the one found. |
| Protocol.DrainInParts | src/server_uds.c:247-284 | Parsing in two parts gives what parsing at once gives. |
| Protocol.ReceiveIsDrain | src/server_uds.c:247-284 | Reception in any pieces gives the requests, verdict and leftover of the whole stream. |
| Protocol.FragmentationIndependent | src/server_uds.c:247-284 | Two cuttings of one stream give the same requests and verdict and, when kept, the same leftover. |
| Buffer.Buffer.constructor | src/buffer.c:50-62 | A new buffer is empty, with no allocation. |
| Buffer.Buffer.NewCapacity | src/buffer.c:17-37 | The growth loop ends, without overflow, with the capacity of Enlarged. |
| Buffer.Enlarged | src/buffer.c:11-37 | The capacity grown to suffices, is within the limit, and is at least doubled or at the limit. |
| Buffer.FirstGrowth | src/buffer.c:24-29 | The first allocation is of 64 bytes, or of the limit when that is smaller. |
| Buffer.Copy | src/buffer.c:64-88 | The appended bytes take their place and what is before them stays. |
| Buffer.Buffer.Grow | src/buffer.c:15-48 | Growing keeps the contents; all replaced allocations together stay within twice the capacity; a failure changes nothing. |
| Buffer.Buffer.Append | src/buffer.c:64-88 | All the bytes or none; fails exactly for lack of room or of memory it needs; the capacity afterwards is exact. |
| Buffer.Buffer.Consume | src/buffer.c:90-106 | Drops exactly the prefix, or fails when asked for more than there is. |
| Buffer.Buffer.Truncate | src/protocol.c:64-67 | The encoders' rollback restores the earlier contents. |
| Codec.EncodeRequest | src/protocol.c:23-70 | Appends the whole frame or nothing; succeeds exactly for the types 1 to 3, an argument of at most 65529 bytes, enough room, and the memory each append needs. |
| Codec.EncodeResponse | src/protocol.c:120-156 | Appends the whole response frame or nothing; succeeds exactly for at most 65535 bytes, when they fit and each append finds the memory it needs. |
| Codec.AppendBoth | src/protocol.c:60-69 | Header and body are both appended, or the contents are rolled back, exactly by the memory each needs. |
| Queue.RequestQueue.constructor | src/queue.c:14-25 | An empty list. |
| Queue.RequestQueue.Enqueue | src/queue.c:27-67 | Appends at the tail, or changes nothing for a bad descriptor or no memory; the list stays acyclic with correct tail and length. |
| Queue.RequestQueue.Dequeue | src/queue.c:69-92 | Detaches the first node and leaves the rest; nothing exactly when empty. |
| Queue.RequestQueue.Peek | src/queue.c:94-101 | The first item, or none when empty. |
| Queue.RequestQueue.DiscardClient | src/queue.c:103-139 | In-place removal is the order-preserving filter, and returns the number removed, with heads, tails and runs removed. |
| Queue.RequestQueue.Clear | src/queue.c:141-160 | Walks the whole list and leaves it empty. |
| Queue.WithoutRemovesOnly | src/queue.c:103-139 | The filter keeps exactly the other clients' items, each client's in its order. |
| Shell.CommandLexes | src/commands.c:57-83 | Read by the shell's rules, the built line is the program's words, one word equal to the argument, and the redirection. |
| Shell.LsLexes | src/commands.c:157-157 | For ls the words are, byte for byte, `ls`, `-1`, `--`, the argument, and `2>/dev/null`. |
| Shell.CatLexes | src/commands.c:202-202 | For cat they are `cat`, `--`, the argument, and `2>/dev/null`. |
| Shell.ScanQuoted | src/commands.c:41-53 | A quoted argument is one word with exactly the argument's bytes, quotes included. |
| Shell.QuotedBytes | src/commands.c:41-51 | Quoting goes byte by byte: an apostrophe becomes the four bytes that close, escape and reopen, any other byte stays. |
| Shell.CommandText | src/commands.c:57-83 | The two command lines as bytes, with nothing but the quoted argument left open. |
| Shell.QuoteArgument | src/commands.c:19-55 | Stays within 4n+3 bytes and yields the quoted text, exactly for a nonempty NUL-free argument that fits, given memory. |
| Shell.BuildCommand | src/commands.c:57-83 | The formatted string is the command, uncut, when an int counts its size; beyond, it is what a failing snprintf leaves. |
| Shell.CutIffWrapped | src/commands.c:71-80 | Leaving snprintf's own limit aside, formatting into the allocated size cuts the line if and only if the size_t sum wrapped around. |
| Shell.WholeIffCounted | src/commands.c:71-80 | The string is the command, whatever a failing snprintf leaves, if and only if an int counts its size. |
| Shell.QuotesUncounted | src/commands.c:31-80 | Half a gigabyte of quotes passes the length check and gives no such string. |
| Shell.LongQuotesWrap | src/commands.c:31-80 | The longest argument the length check admits, all quotes, makes it wrap around, and the line is cut. |
| Shell.RequestsAreCounted | src/commands.c:71-80 | With the two programs in use, no argument a frame can carry reaches either limit. |
| Commands.RunCommand | src/commands.c:85-142 | The capture loop computes the outcome characterised by CapturedWholeOrError, with the error of the first chunk that does not fit. |
| Commands.CapturedWholeOrError | src/commands.c:106-141 | Capturing never truncates: all output within the limit, if and only if nothing failed; too much output is EMSGSIZE. |
| Commands.FirstOverrunIs | src/commands.c:106-115 | The chunk that does not fit is the first of the 4096-byte chunks to pass the limit. |
| Commands.CaptureErrors | src/commands.c:85-142 | Each error by its cause and no other: no child, too much output, no memory for it, a failed read or exit status. |
| Commands.ExecuteSays | src/commands.c:144-209 | EINVAL exactly for a malformed request (a cat path without a leading slash among them); otherwise the capture of at most 65535 bytes, for pwd less a last newline; ENOMEM without the command strings. |
| Commands.ExecuteBounded | src/server_uds.c:323-340 | A command's result is at most 65535 bytes, so its response fits the length field. |
| Commands.RunRequest | src/commands.c:144-209 | Dispatch agrees with the outcome function; a line is handed to the shell exactly for a well-formed ls or cat whose strings are allocated, and it lexes to the literal program words and exactly the argument. |
| Commands.Answer | src/server_tcp.c:152-188 | Every request has an answer unless the command failed and its error text could not be formatted. |
| Commands.AnswerSays | src/server_tcp.c:158-187 | A success is the child's whole output, of which pwd drops the last byte exactly when it is a newline; a failure is the bytes `ERROR: ` and the text of the very error that occurred, cut exactly beyond 255 bytes. |

## Left out

- Opening, binding, unlinking and configuring sockets, and installing signal handlers: plumbing around the modelled loops.
- `popen`, `pclose` and the programs themselves: an arbitrary child gives output, exit status and read errors.
- The fixed command line of `pwd`: it takes no argument and has nothing to quote.
- Logging, option parsing, port parsing and the `main` functions: no protocol state depends on them.
- Failures of mutex operations and of joins: taken to succeed, as the source's fallback is logging. Signal-mask failures before a thread is created are covered as failed creations.
- NULL-argument checks, `errno` beyond the verdicts and outcomes named in the model, and the return of memory by `free`.
- Answering requests after end of stream in the poll server: it discards a disconnected client's queued work by design.
- Fairness between clients of the poll server: the queue waits for its head's owner by design.
- The fixed table sizes: every result holds for any number of slots.
- A session inside the worker lifecycle: there one turn of a session is one step that touches no shared field; the session itself is modelled separately.
- Unbounded waiting: loops that retry interrupted calls take a finite but arbitrary number of interruptions, and the server loops a finite but arbitrary number of turns.
- The rest of the shell's grammar: the lexer covers blanks, plain words, single quotes, backslash and `>`; other unquoted bytes stop it, and the built lines hold none.
- The capture loop's buffer as an object: it is the byte sequence a bounded append keeps, with a limit on memory.
- Commands.RunCommand: does not model which later error a child that fails after an overrun would add, because the source keeps the first.
