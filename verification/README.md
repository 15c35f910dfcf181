# Verified models of kernel-facing programs

This project models the parts of a collection of Linux kernel and eBPF programs whose behaviour depends on
an environment that may do anything: an asynchronous ring that completes requests in any order, a network
that loses, duplicates and reorders, probes that fire in any interleaving, frames with any header lengths.
Each program is a transition system on values with an invariant and theorems over all its runs; where the
source works step by step on mutable state there is also a class (or a method with loops) whose methods are
proved to perform those transitions.

`dafny verify dfyconfig.toml` checks everything.

## Contents

| modules | subject |
|---|---|
| `CopyModel`, `CopySafety`, `CopyRuns`, `CopyFile` | the windowed io_uring file copy: tiling, cursors, counters, schedule independence, conservation, termination, the final drain |
| `SequentialCopy` | the plain copy loop the engine has to agree with |
| `EchoModel`, `EchoSafety`, `EchoRuns`, `EchoServer` | the completion-driven echo server: block ownership, descriptors, isolation, the echoed stream |
| `SeqArith`, `Handshake`, `TcpSockets`, `ConnHash` | the three-way handshake, its 32-bit arithmetic and its connection hash |
| `UnlinkTrace` | entry/exit pairing through a bounded map and a ring buffer |
| `HttpCapture`, `HttpFrames` | the XDP and TC header walks and payload captures |
| `InotifyWalk` | the walk over variable-length records |
| `Common` | bytes, optional values, sums over a heap of blocks |

Memory blocks are entries of a map from addresses, so that malloc and free, double frees and leaks can be
spoken about. The environment appears as nondeterministic choice inside methods and as the freely chosen
actions of a run in the transition systems.

## What turned out not to hold

- `copy_file` can return 0 without having copied the file. It does so exactly when the submit of new reads
  failed (line 127 leaves the loop and the drain counts only writes) or when a completion taken by the drain was
  shorter than its request (lines 196-203 free it without queuing the rest). `DrainedIffFull` states the
  equivalence for every main-loop run and every drain; `CopyEngine.Copy` states it on the results of its own
  submits and drain completions. `ShortDrainTruncates` and `FailedSubmitCopiesNothing` are concrete runs.
- `copy_file` can block for ever: the wait at line 136 has nothing to wait for exactly when no block is live
  (`WaitIsAnswered`), and `CopyEngine.Copy` gets there if and only if malloc refused a block at such a moment.
  For every non-empty file the refusal of the first block is enough (`FirstRefusalHangs`).
- The drain gives up on -EAGAIN, which the completion loop retries (`Fatal`, `DrainOne`).
- The echo server does not send the rest of a short send. `EchoIffFull` states that the echo is exact if and
  only if no send of the connection was short; after a short send no later state makes up for it
  (`LossIsForGood`, `ShortSendLoses`), and `ShortSendExample` is a concrete loss. The receive length shrinks to
  the last chunk's length and never grows again (`LengthNeverGrows`), and after one failed accept the server
  never accepts again (`AcceptsUntilFailure`).
- The unlink tracer keys its map by process, not by thread. Without other failures all calls are reported with
  their own names if and only if no two calls of one process overlap (`ReportedIffAlone`). A call whose entry was
  overwritten is never shown by a later event (`LostForGood`); `TwoThreadsSwapNames` is a concrete pair of
  threads.
- The two packet programs differ on frames with exactly 255 payload bytes, where the guard of the TC program
  skips the copy (`CapturesAgree`; `LongReplyDiffers` is such a frame). Both also emit an event for an empty
  payload (`EmptyPayloadIsReported`), although the comment beside the test speaks of at least some data: the
  comparison is `>`.

## Assumptions of the models

- Asynchronous copy: the source does not change, a completion that is not an error reports at least one and at
  most the requested number of bytes, -EAGAIN is reported any finite number of times, a submit takes all queued
  entries or none, and a wait that nothing will answer is not interrupted.
- Echo server: malloc and submit succeed, accept returns a descriptor that is not open, a transfer is not longer
  than requested. The unprepared entry of line 156 completes with a null pointer.
- Handshake: the server's initial number is new for its four-tuple (`ReusedIsnBreaksAgreement` shows what
  happens otherwise). The tests the document elides are taken from RFC 9293: the SYN test after ACK and RST in
  SYN-SENT (section 3.10.7.3), the ACK test of a request (section 3.10.7.4), the form of resets (section
  3.10.7.1). A server may drop any segment it could accept, so further tests it makes do not affect the theorems.
- Unlink tracer: the name argument is a null pointer, unreadable, or a string; the exit probe's read of the map
  value, which is memory of the program itself, succeeds.
- Record walk: the kernel returns whole records.

## Model

| member | source | states |
|---|---|---|
| CopyFile.CopyEngine.Copy | io_uring/file_uring2.c:90-207 | returns 1 iff some wait, peek or completion it logged failed for good, hangs iff malloc refused a block with nothing live, and so returns 0 exactly otherwise; on 0 everything is written iff every submit result was non-negative and every drain completion full, and then the destination is the source and no block is left; however it ends, written positions hold the source's bytes and nothing beyond the source's length changed |
| CopyFile.CopyEngine.constructor | io_uring/file_uring2.c:96-97 | the engine starts in the initial state of the transition system |
| CopyFile.CopyEngine.MainLoop | io_uring/file_uring2.c:99-185 | the outer loop reaches the drain with everything handed out, or with staged reads exactly if a submit failed; it returns 1 exactly if a reply was fatal and hangs exactly if malloc refused a block with nothing live |
| CopyFile.CopyEngine.Round | io_uring/file_uring2.c:100-184 | one pass leaves less to do, or ends the loop in one of these ways for its own reason |
| CopyFile.CopyEngine.FillWindow | io_uring/file_uring2.c:104-121 | the fill loop queues reads until the file or the window is used up, and stops earlier exactly if malloc refused; the amount of work is unchanged |
| CopyFile.CopyEngine.FillOnce | io_uring/file_uring2.c:105-120 | one pass is an enabled fill step of the transition system, or changes nothing, exactly as malloc answers |
| CopyFile.CopyEngine.FillAndSubmit | io_uring/file_uring2.c:103-129 | new reads are all handed to the kernel, or the submit failed and they stay staged |
| CopyFile.CopyEngine.ReapCompletions | io_uring/file_uring2.c:131-184 | the completion loop handles at least one completion, fails, or hangs, which it does exactly if bytes remain and no block is live |
| CopyFile.CopyEngine.ReapOne | io_uring/file_uring2.c:135-183 | one pass stays within the reachable states and leaves strictly less to do, and fails exactly on a fatal reply |
| CopyFile.CopyEngine.HandleCqe | io_uring/file_uring2.c:153-183 | a handled completion is the next state of the transition system with its bytes of work done, and is then marked as seen |
| CopyFile.CopyEngine.Handle | io_uring/file_uring2.c:153-183 | retry, short transfer, read turned into write and freed write, each with its effect on cursors and counters |
| CopyFile.CopyEngine.CqeSeen | io_uring/file_uring2.c:158-182 | whenever a completion is marked as seen, staged, outstanding and unseen requests are at most DEPTH + 1 |
| CopyFile.CopyEngine.Malloc | io_uring/file_uring2.c:57-59 | an address not in use or a refusal, as its log records |
| CopyFile.CopyEngine.SubmitChecked | io_uring/file_uring2.c:124-128 | all staged requests go to the kernel, or nothing changes and the logged result is negative |
| CopyFile.CopyEngine.QueueRead | io_uring/file_uring2.c:53-77 | fails exactly if malloc refuses or no slot is free, and then changes nothing; else a fresh block with arbitrary contents is set up and staged |
| CopyFile.CopyEngine.QueuePrepped | io_uring/file_uring2.c:39-50 | the block is staged in a free slot |
| CopyFile.CopyEngine.QueueWrite | io_uring/file_uring2.c:79-88 | the finished read is rewound, becomes a write of the same block, and is submitted |
| CopyFile.CopyEngine.WaitCqe | io_uring/file_uring2.c:136-137 | the kernel finishes any request it holds with any admissible result, or the call fails; both are logged |
| CopyFile.CopyEngine.PeekCqe | io_uring/file_uring2.c:139-143 | as the wait, or nothing is there and nothing changes |
| CopyFile.CopyEngine.Drain | io_uring/file_uring2.c:188-206 | returns 1 exactly on a fatal reply; else 0, and its logged completions are a drain run from the state the main loop was left in to the final one, with writes at zero |
| CopyFile.CopyEngine.DrainOne | io_uring/file_uring2.c:189-203 | whatever completes is freed, counted as a write and logged; it fails exactly on a failed wait or a negative completion, -EAGAIN included, and then leaves the destination alone |
| CopyModel.WriteReadsBack | io_uring/file_uring2.c:47 | what was written at an offset reads back there |
| CopyModel.DisjointWritesCommute | io_uring/file_uring2.c:47 | writes to disjoint ranges may complete in either order, also when they extend the file |
| CopyModel.CountLive | io_uring/file_uring2.c:107 | reads and writes together count the live blocks |
| CopySafety.FillKeepsInv | io_uring/file_uring2.c:104-121 | queuing a read keeps tiling, contents, counters and queues |
| CopySafety.CompleteKeepsInv | io_uring/file_uring2.c:153-183 | any completion of any outstanding request keeps the invariant and uses up exactly its bytes of work |
| CopySafety.AgainKeepsInv | io_uring/file_uring2.c:155-159 | a retried request keeps the invariant |
| CopySafety.TransferContent | io_uring/file_uring2.c:68-84 | a transfer moves source bytes to their own position in the buffer or the destination |
| CopySafety.ShortKeepsRequest | io_uring/file_uring2.c:164-171 | after a short transfer the three cursors still agree and the bytes behind them are the source's, in the buffer of a read and in the destination of a write |
| CopySafety.TilingKept | io_uring/file_uring2.c:174-182 | a step that changes one block leaves no gap and no overlap |
| CopySafety.BehindIsKept | io_uring/file_uring2.c:164-182 | no completion leaves an unwritten position before the cursor of a write |
| CopyRuns.StepKeepsInv | io_uring/file_uring2.c:99-184 | every enabled action keeps the invariant and conserves moved plus remaining bytes |
| CopyRuns.RunKeepsInv | io_uring/file_uring2.c:99-184 | every state of every run is good, and bytes moved plus bytes remaining are constant |
| CopyRuns.RunCopies | io_uring/file_uring2.c:90-207 | schedule independence: every finished run leaves the same destination and moved each byte exactly twice |
| CopyRuns.NeverStuck | io_uring/file_uring2.c:99-152 | in every unfinished reachable state some request can be queued, submitted or completed |
| CopyRuns.RunIsBounded | io_uring/file_uring2.c:99-204 | no run has more completions than twice the file size |
| CopyRuns.ReachableTiles | io_uring/file_uring2.c:96-121 | each position is not handed out, written with its source byte, or pending on exactly one block |
| CopyRuns.ReachableCursors | io_uring/file_uring2.c:164-171 | offset, iov_base and iov_len of a request move together; the bytes before the cursor are the source's, in the buffer of a read and in the destination of a write |
| CopyRuns.ReachableFitsRing | io_uring/file_uring2.c:39-121 | the counters equal the live blocks, at most 64, write_left equals insize plus the reads in flight, and a queue slot is always free |
| CopyRuns.ReachableChunks | io_uring/file_uring2.c:104-120 | whatever the schedule, every block is a 32 KiB chunk at a multiple of 32 KiB, or the rest of the file |
| CopyRuns.WaitIsAnswered | io_uring/file_uring2.c:132-140 | in a reachable state the kernel can answer the blocking wait iff some block is live; if none is, the window is empty and all remaining bytes are unread |
| CopyRuns.FirstRefusalHangs | io_uring/file_uring2.c:118-136 | with any non-empty file, if the first block is refused the wait that follows has no answer |
| CopyRuns.MainLoopExit | io_uring/file_uring2.c:99-188 | at the end of the main loop reads is zero and writes counts exactly the live blocks |
| CopyRuns.DrainStep | io_uring/file_uring2.c:189-203 | a drain step keeps the drain invariant, clean exactly if the transfer was full |
| CopyRuns.DrainKeepsInv | io_uring/file_uring2.c:188-204 | over any drain nothing is lost exactly if nothing was at its start and all its completions are full |
| CopyRuns.DrainedIffFull | io_uring/file_uring2.c:90-206 | for every main-loop run and every drain that ends: all positions are written iff no submit failed and every drain completion was full, and then the destination is the source and every block is free |
| CopyRuns.FailedSubmitDrain | io_uring/file_uring2.c:123-128 | a failed submit leaves a position that nobody will write |
| CopyRuns.ShortDrainTruncates | io_uring/file_uring2.c:196-203 | a concrete reachable state and drain that return 0 with the last byte missing |
| CopyRuns.FailedSubmitCopiesNothing | io_uring/file_uring2.c:124-128 | a concrete reachable state in which a failed submit returns 0 with an empty destination |
| SequentialCopy.Streams.Fread | io_uring/normal.c:31 | the next bytes of the file, a full buffer unless the file ends or an error occurs, which sets the error indicator |
| SequentialCopy.Streams.Fwrite | io_uring/normal.c:32 | a prefix of the data is appended and logged |
| SequentialCopy.Streams.Copy | io_uring/normal.c:28-53 | succeeds iff no read met an error and no write was short; success is an exact copy, failure a prefix |
| SequentialCopy.CopyBothWays | io_uring/normal.c:31-39 | when both succeed and the engine had no failed submit and no short drain completion, both programs leave the same bytes, those of the source |
| EchoServer.Server.constructor | io_uring/socket_uring_server.c:155-159 | the server starts with the stray entry and one accept staged |
| EchoServer.Server.SetAcceptEvent | io_uring/socket_uring_server.c:35-54 | a fresh block tagged accept rides on a new request |
| EchoServer.Server.SetRecvEvent | io_uring/socket_uring_server.c:56-63 | the block is tagged read and rides on a new request |
| EchoServer.Server.SetSendEvent | io_uring/socket_uring_server.c:65-72 | the block is tagged write and rides on a new request |
| EchoServer.Server.OnAccept | io_uring/socket_uring_server.c:185-194 | the new connection and the next accept are armed with fresh blocks and the old block is freed |
| EchoServer.Server.OnTransfer | io_uring/socket_uring_server.c:195-217 | close and free on end or error, else the same block goes on with its other operation |
| EchoServer.Server.HandleCqe | io_uring/socket_uring_server.c:172-218 | one completion is processed as the transition system does, closing only open descriptors and freeing only live blocks |
| EchoServer.Server.ServeBatch | io_uring/socket_uring_server.c:167-220 | processes every completion of the batch once and in order, and queues at most one entry more than it has completions |
| EchoServer.Server.Round | io_uring/socket_uring_server.c:161-221 | submits everything staged, lets the kernel complete requests and processes all completions that are there, up to ten |
| EchoServer.Server.Serve | io_uring/socket_uring_server.c:161-221 | any number of such rounds, each starting with room in the queue |
| EchoServer.Server.SubmitAll | io_uring/socket_uring_server.c:162 | all staged requests go to the kernel |
| EchoServer.Server.KernelComplete | io_uring/socket_uring_server.c:165-168 | the kernel posts any completion it may report |
| EchoServer.Server.PeekBatch | io_uring/socket_uring_server.c:167-168 | distinct completions that are there: all of them, or ten |
| EchoSafety.CompleteKeepsInv | io_uring/socket_uring_server.c:165-168 | a completion keeps ownership, descriptors and streams |
| EchoSafety.ProcessKeepsInv | io_uring/socket_uring_server.c:171-219 | processing a completion keeps ownership, descriptors and streams |
| EchoRuns.RunKeepsInv | io_uring/socket_uring_server.c:161-221 | every state of every run satisfies the invariant |
| EchoRuns.OneCarrierPerBlock | io_uring/socket_uring_server.c:171-220 | a ConnInfo is live exactly while exactly one request or completion carries it |
| EchoRuns.DescriptorsAreOwned | io_uring/socket_uring_server.c:185-217 | live connections have distinct open descriptors and no descriptor leaks |
| EchoRuns.CloseIsFinal | io_uring/socket_uring_server.c:196-215 | a close is of an open descriptor held by no other block, and leaves it closed |
| EchoRuns.TransferGoesOn | io_uring/socket_uring_server.c:203-216 | a transfer of at least one byte keeps block, descriptor and buffer and arms a send of exactly the bytes received, or the next receive |
| EchoRuns.AcceptGoesOn | io_uring/socket_uring_server.c:185-194 | a successful accept gives the new descriptor a block that receives up to 4096 bytes and arms the next accept on the listener |
| EchoRuns.TransferIsRecorded | io_uring/socket_uring_server.c:165-168 | a completed receive puts its bytes at the front of the buffer and into the history, a completed send its piece |
| EchoRuns.ClosedIffEnded | io_uring/socket_uring_server.c:196-215 | over any step a descriptor is closed iff a completion of its own block reported the end or an error |
| EchoRuns.OpenedIffAccepted | io_uring/socket_uring_server.c:185 | over any step a descriptor is opened iff an accept completed with it |
| EchoRuns.ServedUntilEnded | io_uring/socket_uring_server.c:161-221 | over any run a connection is alive, on its block and descriptor, iff no transfer of it reported the end or an error |
| EchoRuns.StepIsIsolated | io_uring/socket_uring_server.c:171-219 | a step for one connection leaves every other block, descriptor and history untouched |
| EchoRuns.EchoIffFull | io_uring/socket_uring_server.c:204-216 | sent bytes followed by the buffered chunk equal the received bytes iff no send was short |
| EchoRuns.SentPiecesArePrefixes | io_uring/socket_uring_server.c:204-216 | for every connection ever, piece by piece, a non-empty prefix of the received chunk was sent |
| EchoRuns.LengthNeverGrows | io_uring/socket_uring_server.c:189-205 | the receive length stays in 1..MAXLINE and never grows over any run |
| EchoRuns.AcceptsUntilFailure | io_uring/socket_uring_server.c:179-194 | an accept is armed exactly until one fails |
| EchoRuns.NeverAcceptsAgain | io_uring/socket_uring_server.c:180-184 | after a failed accept no run ever accepts again |
| EchoRuns.ProcessLoads | io_uring/socket_uring_server.c:187-216 | processing one completion adds at most one entry beyond the outstanding accept |
| EchoRuns.LossIsForGood | io_uring/socket_uring_server.c:204-216 | once a connection had a short send, in every later state it has sent fewer bytes than came in the chunks it answered, and while it lives the echo is wrong |
| EchoRuns.HistoriesGrow | io_uring/socket_uring_server.c:204-216 | over any run the histories of all connections are only extended |
| EchoRuns.ShortSendLoses | io_uring/socket_uring_server.c:209-216 | any send of more than one byte may complete short, and then in no later state is the echo complete |
| EchoRuns.ShortSendExample | io_uring/socket_uring_server.c:209-216 | a concrete reachable state in which two bytes came in and one goes out |
| SeqArith.AckWindow | tcp3次握手源码解析.md:919-928 | for windows up to 2^31 the signed test accepts exactly the outstanding numbers |
| SeqArith.WiderWindowFails | tcp3次握手源码解析.md:919-928 | for wider windows it rejects the first outstanding number |
| SeqArith.SynAckAcceptable | tcp3次握手源码解析.md:919-928 | in SYN-SENT the one acceptable acknowledgement is ISN + 1 modulo 2^32 |
| Handshake.StepKeepsInv | tcp3次握手源码解析.md:363-420 | every step of client, server and network keeps the logs consistent |
| Handshake.RunKeepsInv | tcp3次握手源码解析.md:363-420 | so does every run |
| Handshake.ClientRcvKeepsInv | tcp3次握手源码解析.md:909-959 | a client establishes only on numbers some request of the server had |
| Handshake.ServerRcvKeepsInv | tcp3次握手源码解析.md:1094-1112 | a child appears only on an acknowledgement its client sent when established |
| Handshake.ListenKeepsInv | tcp3次握手源码解析.md:378-406 | a request is made only for a SYN some client sent |
| Handshake.ClientAgreement | tcp3次握手源码解析.md:944-970 | an established client has a unique request with its two numbers |
| Handshake.ServerAgreement | tcp3次握手源码解析.md:1490-1517 | an established child has a client that connected and reached ESTABLISHED with the same two numbers |
| Handshake.BothAgree | tcp3次握手源码解析.md:1490-1517 | ends that share the server's number share both numbers |
| Handshake.HandshakeCompletes | tcp3次握手源码解析.md:113-164 | from any state with the four-tuple free, three segments establish both ends |
| Handshake.ConnectIsRefused | tcp3次握手源码解析.md:930-932 | where nobody listens, a SYN is answered by a reset that returns the client to CLOSE |
| Handshake.SynSentCases | tcp3次握手源码解析.md:919-959 | by flags and numbers: when a client in SYN-SENT is established, reset, half-open or unchanged, and what it sends |
| Handshake.ClientCases | tcp3次握手源码解析.md:909-959 | a client step changes only its own socket, only in SYN-SENT, and records exactly the connections it establishes |
| Handshake.RequestCases | tcp3次握手源码解析.md:1094-1112 | by flags and numbers: a request is removed exactly on RST, becomes a child exactly on an ACK of its number, repeats its SYN-ACK on a SYN, resets otherwise |
| Handshake.FreeCases | tcp3次握手源码解析.md:378-406 | by flags and numbers: a free four-tuple gets a request exactly on a plain SYN to a listener; an ACK is reset, RST and SYN+FIN are ignored, a closed port resets |
| Handshake.ServerCases | tcp3次握手源码解析.md:1086-1112 | every segment whatsoever gets the answer its flags and numbers demand, and nothing else changes |
| Handshake.SecondAttemptIsReachable | tcp3次握手源码解析.md:729-743 | an expired request and a second connect on the same four-tuple are reachable |
| Handshake.ReusedIsnBreaksAgreement | tcp3次握手源码解析.md:1216-1240 | with a reused server number an old ACK establishes a child whose client is still in SYN-SENT |
| TcpSockets.ActiveSocket.StartConnect | tcp3次握手源码解析.md:100-163 | the SYN goes to the peer with write_seq, which it uses up; the socket is in SYN-SENT |
| TcpSockets.ActiveSocket.Receive | tcp3次握手源码解析.md:909-970 | ESTABLISHED exactly on a SYN-ACK of its own number, CLOSE exactly on a reset of it, SYN-RECV exactly on a plain SYN, otherwise unchanged; and what is sent in each case |
| TcpSockets.PassiveHost.ReceiveListen | tcp3次握手源码解析.md:378-406 | the LISTEN case performs the server's listening step |
| TcpSockets.PassiveHost.Receive | tcp3次握手源码解析.md:1086-1112 | performs the server's step, established table first, with the answer that flags and numbers demand |
| ConnHash.EHash.constructor | tcp3次握手源码解析.md:693-700 | an empty table |
| ConnHash.EHash.InsertSock | tcp3次握手源码解析.md:693-726 | the table holds what the map with the four-tuple updated holds |
| ConnHash.EHash.LookupEstablished | tcp3次握手源码解析.md:1172-1208 | the walk along a chain returns what the map holds |
| ConnHash.EHash.InetLookup | tcp3次握手源码解析.md:1149-1168 | connections and requests are found before listeners |
| ConnHash.InsertAgrees | tcp3次握手源码解析.md:677-726 | an insertion keeps table and map in agreement for every packet |
| ConnHash.TableIsMap | tcp3次握手源码解析.md:677-726 | for any hash function, bucket count and history the chained table is the plain map |
| ConnHash.LatestWins | tcp3次握手源码解析.md:720-721 | a packet reaches the latest socket of its four-tuple, that very socket with its hash filled in |
| ConnHash.StrangerIsNotFound | tcp3次握手源码解析.md:1172-1208 | a packet whose four-tuple was never inserted reaches none, whatever shares its chain |
| UnlinkTrace.ReadStrShows | eBPF/test.bpf.c:31-63 | a string read into 256 bytes leaves its bytes before the first zero, at most 255, with a zero behind them, and the rest of the buffer as it was |
| UnlinkTrace.ReadStrReads | eBPF/test.bpf.c:37-63 | a name read again from such a buffer is the same name |
| UnlinkTrace.BufferShows | eBPF/test.bpf.c:31-63 | the stored buffer and its copy in an event show the name, or nothing if it could not be read, whatever the ring memory held |
| UnlinkTrace.StepKeepsInv | eBPF/test.bpf.c:28-70 | every stored name belongs to a call still in flight |
| UnlinkTrace.RunKeepsInv | eBPF/test.bpf.c:28-70 | so in every interleaving, with overlapping threads and failures |
| UnlinkTrace.EventsInEveryRun | eBPF/test.bpf.c:28-70 | in every interleaving each event has the process and result of the call that returned and shows the name of a call of that process that stored it; no call emits or names two events; no map entry outlives its call |
| UnlinkTrace.EntryStores | eBPF/test.bpf.c:28-43 | an entry stores its name unless it is null or 10240 other keys are there, and touches no other key |
| UnlinkTrace.ExitEmits | eBPF/test.bpf.c:45-70 | an exit emits one event with its process and result exactly if a name is stored and the ring has room, and removes exactly its own key |
| UnlinkTrace.EventsArePaired | eBPF/test.bpf.c:28-70 | with one call in flight per process every event carries the process and result of its own call and shows its name, whatever fails |
| UnlinkTrace.EventHoldsName | eBPF/test.bpf.c:28-70 | such an event holds the first 255 bytes at most of the call's own name and a zero behind them |
| UnlinkTrace.ReportedIffAlone | eBPF/test.bpf.c:28-70 | without other failures all calls are reported with their own names iff no two calls of a process overlap |
| UnlinkTrace.LostForGood | eBPF/test.bpf.c:39 | after a call's entry was overwritten no later event shows its name, and the event of its own exit, if any, shows another call's |
| UnlinkTrace.TwoThreadsSwapNames | eBPF/test.bpf.c:32-66 | a concrete pair of threads whose report is wrong |
| UnlinkTrace.Tracer.UpdateElem | eBPF/test.bpf.c:39 | a full map refuses new keys only |
| UnlinkTrace.Tracer.DoUnlinkatEntry | eBPF/test.bpf.c:28-43 | the entry probe updates the map as the transition does; what it stores shows the name |
| UnlinkTrace.Tracer.DoUnlinkatExit | eBPF/test.bpf.c:45-70 | the exit probe always clears its key and emits exactly the event of the transition: process, result and the stored name |
| HttpCapture.Capture | eBPF/xdp.bpf.c:91-102 | a zeroed buffer with the available bytes copied in if the guard holds |
| HttpCapture.XdpOnBytes | eBPF/xdp.bpf.c:29-104 | on the bytes of any frame: dropped iff IPv4, TCP and to port 8888; an event iff another IPv4 frame from or to port 80 with a ring slot, with its addresses, ports and up to 1024 payload bytes |
| HttpCapture.TcOnBytes | eBPF/tc_trace.bpf.c:27-97 | on the bytes of any frame: an event iff the protocol is IPv4, the frame is TCP from or to port 80 and a ring slot is there, with up to 256 payload bytes but none of exactly 255 |
| HttpCapture.XdpProgram | eBPF/xdp.bpf.c:29-104 | for any frame that verdict and that event, reading only inside the frame |
| HttpCapture.TcProgram | eBPF/tc_trace.bpf.c:27-97 | for any frame and protocol that event, reading only inside the frame |
| HttpCapture.CapturesAgree | eBPF/tc_trace.bpf.c:84-95 | same packets, addresses and ports; payload a prefix iff not exactly 255 (non-zero) bytes remain |
| HttpFrames.WalkEncoded | eBPF/xdp.bpf.c:36-80 | the walk finds the headers of any frame with IHL and Data Offset 5..15 |
| HttpFrames.XdpOnEncoded | eBPF/xdp.bpf.c:29-104 | port 8888 is dropped, port-80 frames yield the sender's addresses, ports and padded payload, others nothing |
| HttpFrames.TcOnEncoded | eBPF/tc_trace.bpf.c:27-97 | whatever the destination port, port-80 frames yield the sender's addresses, ports and padded payload (zeros for 255 bytes), others nothing |
| HttpFrames.EmptyPayloadIsReported | eBPF/tc_trace.bpf.c:69-72 | a port-80 frame without payload still gives an event in both programs |
| HttpFrames.LongReplyDiffers | eBPF/tc_trace.bpf.c:84-95 | a concrete frame with 255 payload bytes of which one program captures the text and the other only zeros |
| HttpFrames.DecodeEncode | eBPF/xdp.bpf.c:44-80 | decoding by header lengths undoes encoding |
| HttpFrames.EncodeDecode | eBPF/xdp.bpf.c:44-80 | every frame with legal header lengths is the encoding of its parts |
| InotifyWalk.Walk | inotify/inotify.c:58-63 | the loop stops exactly at nbytes having visited the buffer's records in order, each where the one before it ends |
| InotifyWalk.NextEvent | inotify/inotify.c:59 | the structure at the current offset is the next record |
| InotifyWalk.RecordsFill | inotify/inotify.c:58-63 | read off the bytes: each record is three little-endian words, a length and that many name bytes, right behind the one before, and together they fill the buffer |
| InotifyWalk.WalkStep | inotify/inotify.c:58-61 | after each record the loop goes on exactly if there are more, and the structure it then sees is the next |
| InotifyWalk.DecodeEncode | inotify/inotify.c:58-63 | the records of a concatenated encoding are the records encoded |
| InotifyWalk.EncodeDecode | inotify/inotify.c:58-63 | a buffer of whole records is the encoding of its records |

## Left out

- CopyFile.CopyEngine.SubmitQueued: the submits whose result the source ignores (lines 87, 157, 169) are taken to succeed.
- CopyFile.CopyEngine.WaitCqe: completions of zero bytes are not modelled; the source would queue such a request again for ever.
- Request and connection blocks are entries of a map from addresses rather than objects; the layout of a block (a buffer behind its header) is not modelled.
- EchoServer.Server.Serve: the endless loop appears as any number of rounds; the wait of line 165 may find nothing.
- Ring set-up, sockets, signals, printing and argument handling of every main function.
- The other io_uring programs (file_uring.c, socket_uring.c, socket_uring_normal.c), whose results depend on schedule or share one buffer.
- get_file_size: the engine starts from the size of the source.
- Simultaneous open beyond the state change the document shows, Fast Open, SYN cookies, retransmission timers of the client, data transfer.
- inet_ehash_insert with an old socket or a duplicate check, whose code the document elides; removal from the table; the restart of a lookup that raced with a concurrent move.
- display_event: an if-chain over mask bits without an algorithm.
- Kernel module demos (lists, timers, semaphores, work queues, drivers) and the remaining eBPF programs: single calls of kernel interfaces.
