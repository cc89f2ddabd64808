# Model of the media relay and its helper libraries

A Dafny model of the stateful cores of a media relay: the server's forwarding table, the client's
punch-hole fallback, the pieces of its networking library (message framing, ring buffer and send path,
message queue between threads, configuration files, MD5) and three codecs and one protocol machine of
the curl library shipped with it. Verify with `dafny verify dfyconfig.toml`.

Each file follows one component. Code that changes state is a class or a method over arrays, proved
against a function on values; what the component is for is then proved about that function, mostly over
all runs of a state machine whose steps are the callbacks. Each callback is one atomic step on its
thread, except where the source gives up a lock or sleeps between steps.

| file | component |
|---|---|
| MediaServer.dfy | forwarding table: a directed graph stored twice, edited by login, edge updates, leave, two logouts and the timeout sweep |
| Md5Rfc.dfy, Md5.dfy, Md5Vectors.dfy | RFC 1321 on 32-bit words; the streaming code on 64-bit registers, as where `unsigned long` has 64 bits; two values that the RFC prints |
| Framing.dfy | length-prefixed messages over one reallocated buffer |
| CircularBuffer.dfy, TcpClient.dfy | the ring buffer; senders filling it and the loop draining it |
| ThreadMsg.dfy | the circular list held by its tail, tested without its lock |
| ConfigText.dfy, Config.dfy, ConfigLaws.dfy, ConfigRoundTrip.dfy | the line reader with read-ahead, the printer, and laws about both |
| PunchHole.dfy | per-peer LAN, WAN, relay attempts driven by timers |
| DotSegments.dfy | RFC 3986 section 5.2.4 and the in-place code |
| Base64.dfy | RFC 4648 sections 4 and 5 |
| Escape.dfy | percent-encoding, RFC 3986 sections 2.1 and 2.3 |
| Wrappers.dfy | an option type, and buffers read up to a length or a zero byte |
| Sasl.dfy | the SASL dialogue (RFC 4422) with its cancellations |

What turned out not to hold as one might expect, and is stated exactly instead:

- The two sides of the forwarding table are not always converses: leave and UDP logout clean one side.
  What always holds is one-directional, and the stale source entries let a later sweep insert a row for
  a user who is gone, or who expires in the same sweep. `SweepExactIff` says exactly when no sweep does;
  `SweepMayReviveUser` is a run after which one does.
- A configuration text whose last line continues a value and has no newline stores that line twice,
  because `getline` on an ended stream leaves the read-ahead string alone (`FinalNewlineMattersIff`,
  `DoublingExample`).
- A path of nothing but "./" and "../" and no query leaves the output buffer of the dot-segment code
  unwritten; its comment promises the RFC's result (`Dedotdotify`, `UnwrittenExample`).
- An input that starts with "?" has an empty path, whose terminator the code moves like a first segment.
  It goes on into the query, and the query is then appended behind the end of the allocation
  (`OverrunIff`, `OverrunExample`). For every other input nothing outside the allocation is written.
- The framing reader frees its buffer on a read error but keeps the fill count (`ReadError`). With bytes
  pending it then takes the old contents of a new buffer for read bytes (`StaleExample`).
- The base64 decoder accepts non-canonical text (`ReencodeIff`, `NonCanonicalExample`) and never the two
  characters of the URL alphabet that the encoder can produce (`UrlDecodableIff`, `UrlExample`).
- With an empty delimiter every line is an entry, also the empty line that the outer loop reads at the end
  of an empty text or after an empty line (`Read`).
- After a cancelled mechanism with none left, the SASL state stays at cancel and the progress is idle;
  its callers end the dialogue there (3rd/curl/lib/smtp.c:824-827).

## Model

| member | source | states |
|---|---|---|
| MediaServer.RunKeepsTargetsCurrent | src/relay_server_sdk/media_server.cpp:51-367 | over every run of logins, verifications (late, in any order, failing or not), edge updates, leaves, TCP and UDP logouts and sweeps: whoever a user forwards to is registered, knows the user in its dataFrom, and is cached with its current address |
| MediaServer.StepKeepsTargetsCurrent | src/relay_server_sdk/media_server.cpp:51-367 | each single handler keeps that invariant |
| MediaServer.FanOutIsLookup | src/relay_server_sdk/media_server.cpp:226-267 | after any run from the empty server, the cached address of a multi-forward target is the address that a single forward to it looks up |
| MediaServer.StepKeepsSymmetricIff | src/relay_server_sdk/media_server.cpp:51-320 | dataTo and dataFrom stay exact converses after a handler if and only if it is not a leave or UDP logout of a user that still has a target other than itself |
| MediaServer.OneSidedKeepsIff | src/relay_server_sdk/media_server.cpp:51-66 | leave and UDP logout, which clean one side only, leave a symmetric table symmetric exactly when the user forwards to nobody but itself |
| MediaServer.RunKeepsSymmetric | src/relay_server_sdk/media_server.cpp:139-196 | over every run of logins, verifications, updates, TCP logouts and sweeps (and any other run whose leaves and UDP logouts are harmless) the two sides are exact converses and mention registered users only |
| MediaServer.SweepLeavesSurvivors | src/relay_server_sdk/media_server.cpp:85-102 | a sweep of a symmetric table, in any iteration order, leaves exactly the users whose time has not passed and exactly the edges between them |
| MediaServer.SweepIsWithout | src/relay_server_sdk/media_server.cpp:85-102 | such a sweep equals deleting the expired users at once; no row is made up |
| MediaServer.VisitSymmetric | src/relay_server_sdk/media_server.cpp:89-99 | one expired row of a symmetric table is removed with all its edges and nothing else changes |
| MediaServer.VisitMakesUpRows | src/relay_server_sdk/media_server.cpp:91-98 | on any reachable table the rows after removing an expired user are the old rows plus one for every stale source it still names |
| MediaServer.SweepExactIff | src/relay_server_sdk/media_server.cpp:85-102 | from any reachable table, for all made-up rows: every sweep (in any order over the table, or in any order that covers it) leaves exactly the users whose time has not passed, if and only if every user that an expired row names as a source is registered and either has time left or still sends to that row |
| MediaServer.KnownSweep | src/relay_server_sdk/media_server.cpp:88-101 | under that condition a sweep deletes exactly the expired users it meets and makes up no row |
| MediaServer.UnknownSweep | src/relay_server_sdk/media_server.cpp:91-93 | without it there is an order, each user once, in which the sweep leaves a row it should not: the expired row last |
| MediaServer.SymmetricIsKnown | src/relay_server_sdk/media_server.cpp:85-102 | a symmetric table meets the condition at every time |
| MediaServer.SweepMayReviveUser | src/relay_server_sdk/media_server.cpp:51-102 | a concrete run whose table fails that condition, and in which a sweep brings back a user who had logged out |
| MediaServer.StaleTable | src/relay_server_sdk/media_server.cpp:51-196 | the table in which that run of logins, an edge, a leave and a TCP logout ends: a row that still names a logged-out source |
| MediaServer.StepFrames | src/relay_server_sdk/media_server.cpp:51-367 | a handler that does not concern two users leaves the edge between them, both sides and cached address, as it was |
| MediaServer.SweepFrames | src/relay_server_sdk/media_server.cpp:85-102 | a sweep leaves edges between users that stay as they were |
| MediaServer.UpdateDoes | src/relay_server_sdk/media_server.cpp:352-367 | adding makes the edge on both sides with the target's current address, removing deletes it on both sides, nobody is registered or dropped, and nothing happens unless both users are registered |
| MediaServer.GoneMeansSilent | src/relay_server_sdk/media_server.cpp:51-66 | after leaving or logging out nothing is forwarded to or by the user; logging out also unregisters it, leaving does not |
| MediaServer.GoneFromIndexes | src/relay_server_sdk/media_server.cpp:51-320 | who is registered afterwards, and exactly which reverse indexes still name the user: after a TCP logout those it did not send to, after leave and UDP logout all the others that did |
| MediaServer.LoginLaw | src/relay_server_sdk/media_server.cpp:112-158 | a login of a user whose row has the same address or session changes only the time of that row, to 90 seconds from now; any other login only joins the queue for verification |
| MediaServer.VerifiedLaw | src/relay_server_sdk/media_server.cpp:159-214 | a verified login registers a new user without edges until 90 seconds later and changes no other row; a failed one, or one for a user who is there, changes none |
| MediaServer.SweepKeepsRow | src/relay_server_sdk/media_server.cpp:85-102 | a sweep in any order leaves a user with time left its row, session and address |
| MediaServer.KeepingOnline | src/relay_server_sdk/media_server.cpp:85-158 | over every run, whatever the others do: a user that logs in with its session, from any address, at most 90 seconds before each sweep stays registered with that session under the address it was verified with |
| MediaServer.CMediaServer.OnRecvLoginMsg | src/relay_server_sdk/media_server.cpp:139-158 | acks at once exactly when the user has a row with the same address or the same session; refines the login step |
| MediaServer.CMediaServer.AfterVerification | src/relay_server_sdk/media_server.cpp:198-214 | a verification that succeeded is acknowledged and inserts the row unless there is one already; one that failed does nothing |
| MediaServer.CMediaServer.OnUpdateForwardTable | src/relay_server_sdk/media_server.cpp:352-367 | refines the update step |
| MediaServer.CMediaServer.OnLeaveRoom | src/relay_server_sdk/media_server.cpp:51-66 | the loop over dataFrom and the two clears refine the leave step |
| MediaServer.CMediaServer.OnLogout | src/relay_server_sdk/media_server.cpp:171-196 | the two loops and the erase refine the TCP logout step; fails exactly for an unknown user |
| MediaServer.CMediaServer.OnRecvLogoutMsg | src/relay_server_sdk/media_server.cpp:304-320 | acknowledges in any case; the default-inserting loop and the erase refine the UDP logout step |
| MediaServer.CMediaServer.VisitRow | src/relay_server_sdk/media_server.cpp:89-99 | the loop body of the sweep, with its default insertions, for one user |
| MediaServer.CMediaServer.DropFromSources | src/relay_server_sdk/media_server.cpp:91-93 | the first loop, with the rows that its index operator makes up |
| MediaServer.CMediaServer.DropFromTargets | src/relay_server_sdk/media_server.cpp:94-96 | the second loop likewise |
| MediaServer.CMediaServer.OfflineDetection | src/relay_server_sdk/media_server.cpp:85-102 | the sweep visits the users in the given order |
| MediaServer.CMediaServer.OnRecvMultiForwardMsg | src/relay_server_sdk/media_server.cpp:236-267 | sends exactly once to every target, at its cached address, which in every reachable table is its current one |
| Md5.MD5 | src/simple_uv/md5.cpp:274-285 | for every message, the digest of RFC 1321 |
| Md5.DigestOfChunks | src/simple_uv/md5.cpp:175-259 | however a message is split over updates, the digest is that of RFC 1321 sections 3.1 to 3.5 for the whole |
| Md5Vectors.PrintedValues | src/simple_uv/md5.cpp:274-285 | the routine gives the values that RFC 1321 prints in appendix A.5 for the empty message and for the 62 letters and digits |
| Md5Vectors.DigestOfEmpty | src/simple_uv/md5.cpp:12-173 | the first, through every row of the tables on literal registers |
| Md5Vectors.DigestOfAlnum | src/simple_uv/md5.cpp:12-173 | the second: two blocks in which every word and byte position counts |
| Md5Vectors.LengthVectors | src/simple_uv/md5.cpp:237-246 | the length goes low byte and low word first, modulo 2^64 |
| Md5.MD5_CTX.Update | src/simple_uv/md5.cpp:175-223 | the context then stands for the old message followed by the new bytes: registers after the whole blocks, the partial block in the buffer, the counter |
| Md5.MD5_CTX.Final | src/simple_uv/md5.cpp:225-259 | returns the RFC's digest of everything absorbed, with one or two padding blocks, and clears the buffer |
| Md5.MD5_CTX.FullBlock | src/simple_uv/md5.cpp:232-236 | a block without room for the length is filled with zeros and hashed |
| Md5.MD5_CTX.LastBlock | src/simple_uv/md5.cpp:237-248 | zeros, the length low word first, and the last hash |
| Md5.MD5_CTX.AddLength | src/simple_uv/md5.cpp:183-187 | Nh and Nl together stay eight times the byte count modulo 2^64 |
| Md5.CounterStep | src/simple_uv/md5.cpp:183-187 | the truncating shift, the carry test and the added high bits do that for every length |
| Md5.MD5_CTX.Absorb | src/simple_uv/md5.cpp:189-222 | the buffering branches keep the context's meaning |
| Md5.MD5_CTX.AbsorbBlocks | src/simple_uv/md5.cpp:209-222 | the same from an empty partial block: whole blocks, then the rest |
| Md5.MD5_CTX.FillBlock | src/simple_uv/md5.cpp:194-200 | completing a partial block compresses it and empties the buffer |
| Md5.MD5_CTX.WholeBlocks | src/simple_uv/md5.cpp:209-215 | whole blocks are compressed in place |
| Md5.MD5_CTX.KeepRest | src/simple_uv/md5.cpp:203-205 | fewer bytes than a block are kept |
| Md5.MD5_CTX.BlockDataOrder | src/simple_uv/md5.cpp:79-173 | over any number of blocks the registers end as the RFC's 32-bit ones |
| Md5.OneTurn | src/simple_uv/md5.cpp:97-172 | one block on 64-bit registers with unmasked sums and shifts is the RFC's compression |
| Md5.Round0 | src/simple_uv/md5.cpp:99-115 | sixteen steps agree modulo 2^32 with round 1 |
| Md5.Round1 | src/simple_uv/md5.cpp:116-132 | sixteen steps agree modulo 2^32 with round 2 |
| Md5.Round2 | src/simple_uv/md5.cpp:133-149 | sixteen steps agree modulo 2^32 with round 3 |
| Md5.Round3 | src/simple_uv/md5.cpp:150-166 | sixteen steps agree modulo 2^32 with round 4 |
| Md5.R0 | src/simple_uv/md5.cpp:40-43 | one step modulo 2^32, whatever the upper halves of the registers hold |
| Md5.R1 | src/simple_uv/md5.cpp:45-48 | the same with G |
| Md5.R2 | src/simple_uv/md5.cpp:50-53 | the same with H |
| Md5.R3 | src/simple_uv/md5.cpp:55-58 | the same with I |
| Md5.LowRotate | src/simple_uv/md5.cpp:17 | the 64-bit rotation macro rotates the lower half |
| Md5.LowMix | src/simple_uv/md5.cpp:40-58 | the 64-bit sum of a step is the 32-bit one on the lower halves |
| Md5.LowF | src/simple_uv/md5.cpp:35 | F of the macros is the RFC's F on the lower halves |
| Md5.LowG | src/simple_uv/md5.cpp:36 | G likewise |
| Md5.LowI | src/simple_uv/md5.cpp:38 | I likewise, for all the bits the complement sets above |
| Md5.LowLoad | src/simple_uv/md5.cpp:18-21 | four bytes load as a little-endian word |
| Md5.PaddedBlocks | src/simple_uv/md5.cpp:225-248 | the blocks that the last call hashes are the RFC's padded message, for every length of the last part |
| Md5Rfc.BlocksConcat | src/simple_uv/md5.cpp:79-173 | compressing consecutive stretches of blocks is compressing them together |
| Framing.AnyChunking | src/simple_uv/UVMsgFraming.cpp:45-58 | for every list of messages passed to the sender and every way of cutting the byte stream into reads, the receiver delivers exactly the messages that the sender does not refuse, in order, and keeps exactly the incomplete rest |
| Framing.Receive | src/simple_uv/UVMsgFraming.cpp:83-181 | the same for the parser itself: over any number of rounds, whatever the allocator grants and however many bytes arrive for each window, the messages handed over are those of the bytes read so far, a prefix of the accepted ones, and all of them once the stream is used up |
| Framing.uv_msg_t.Read | src/simple_uv/UVMsgFraming.cpp:127-186 | a read delivers what parsing the pending bytes and the new ones delivers; afterwards the buffer holds exactly the incomplete suffix, and is released when that is empty |
| Framing.uv_msg_t.OneRead | src/simple_uv/UVMsgFraming.cpp:83-181 | one round: a window, and as many of the next bytes as arrived and fit in |
| Framing.uv_msg_t.Alloc | src/simple_uv/UVMsgFraming.cpp:83-125 | the window is non-empty, starts at the fill mark and lies in the buffer; with a header it ends exactly at the frame's end; there is no window exactly when an allocation failed or was too small; the buffer is the old one or newly allocated, of the size granted |
| Framing.uv_msg_t.Realloc | src/simple_uv/UVMsgFraming.cpp:71-81 | succeeds exactly when enough was granted and keeps the pending bytes |
| Framing.uv_msg_t.Dispatch | src/simple_uv/UVMsgFraming.cpp:158-173 | the cursor loop hands over every complete frame in order and stops at the rest |
| Framing.uv_msg_t.Settle | src/simple_uv/UVMsgFraming.cpp:175-181 | moves the rest to the front, or releases the buffer |
| Framing.uv_msg_t.ReadError | src/simple_uv/UVMsgFraming.cpp:142-147 | frees the buffer but keeps the fill count: the parser stays usable exactly when nothing was pending |
| Framing.uv_msg_t.ReadAfterError | src/simple_uv/UVMsgFraming.cpp:83-181 | otherwise, once a new buffer is there, its old contents up to the fill count are parsed as if they had been read |
| Framing.StaleExample | src/simple_uv/UVMsgFraming.cpp:132-181 | a run in which a message is delivered whose first byte was never on the stream |
| Framing.ParseMore | src/simple_uv/UVMsgFraming.cpp:127-186 | parsing a stream is parsing its first part and going on from what was left over |
| Framing.ParseStream | src/simple_uv/UVMsgFraming.cpp:45-58 | parsing what was sent, followed by an incomplete frame, gives back the accepted messages and that frame |
| Framing.ParseFrame | src/simple_uv/UVMsgFraming.cpp:51-54 | one frame in front is delivered whole |
| Framing.FeedAllIsParse | src/simple_uv/UVMsgFraming.cpp:127-186 | reading in pieces is parsing the whole |
| Framing.DeliveredIsPrefix | src/simple_uv/UVMsgFraming.cpp:127-186 | at any moment the delivered messages are a prefix of the accepted ones, and no length prefix overflows |
| Framing.StillIncomplete | src/simple_uv/UVMsgFraming.cpp:127-186 | what is left over never holds a whole frame |
| Framing.SizeOfBe32 | src/simple_uv/UVMsgFraming.cpp:51 | the length read back from the network order is the length written |
| Framing.NetworkOrder | src/simple_uv/UVMsgFraming.cpp:51 | the header is in network order: of two lengths the smaller has the lexicographically smaller header |
| Framing.SizeOrder | src/simple_uv/UVMsgFraming.cpp:100-161 | any two headers compare as numbers exactly as their four bytes compare from the first on |
| Framing.FrameExamples | src/simple_uv/UVMsgFraming.cpp:45-58 | the bytes for a message of two bytes and the header of one of 256 |
| Framing.AcceptedLaws | src/simple_uv/UVMsgFraming.cpp:45-58 | the sender refuses exactly the empty messages and keeps the order of the others |
| CircularBuffer.CPodCircularBuffer.Write | src/simple_uv/PodCircularBuffer.h:70-148 | in every branch: appends exactly the first min(count, room) items and returns that number |
| CircularBuffer.CPodCircularBuffer.Read | src/simple_uv/PodCircularBuffer.h:153-219 | in every branch: removes and returns exactly the first min(count, size) items |
| CircularBuffer.CPodCircularBuffer.WriteEmpty | src/simple_uv/PodCircularBuffer.h:78-95 | the same with equal positions, straight or wrapped |
| CircularBuffer.CPodCircularBuffer.WriteAhead | src/simple_uv/PodCircularBuffer.h:96-121 | the same with the write position ahead |
| CircularBuffer.CPodCircularBuffer.WriteBehind | src/simple_uv/PodCircularBuffer.h:122-147 | the same with the write position behind |
| CircularBuffer.CPodCircularBuffer.ReadFull | src/simple_uv/PodCircularBuffer.h:161-179 | the same on a full buffer |
| CircularBuffer.CPodCircularBuffer.ReadStraight | src/simple_uv/PodCircularBuffer.h:180-193 | the same on one stretch |
| CircularBuffer.CPodCircularBuffer.ReadBehind | src/simple_uv/PodCircularBuffer.h:194-218 | the same around the end |
| CircularBuffer.CPodCircularBuffer.Size | src/simple_uv/PodCircularBuffer.h:44-54 | the number of items held |
| CircularBuffer.CPodCircularBuffer.Full | src/simple_uv/PodCircularBuffer.h:28-30 | the flag says that the queue has reached the capacity |
| CircularBuffer.CPodCircularBuffer.Empty | src/simple_uv/PodCircularBuffer.h:31-33 | the flag says that the queue is empty |
| CircularBuffer.CPodCircularBuffer.Clear | src/simple_uv/PodCircularBuffer.h:34-39 | empties the queue |
| CircularBuffer.PutWrapped | src/simple_uv/PodCircularBuffer.h:90-94 | a write that wraps around appends both parts in order |
| CircularBuffer.TakeWrapped | src/simple_uv/PodCircularBuffer.h:210-213 | a read that wraps around takes both parts in order |
| TcpClient.EveryRunConserves | src/simple_uv/tcpclient.cpp:211-388 | for every interleaving of senders, drains, failed writes and closing: what the ring accepted is what was passed to uv_write, then what is held, then the ring; each sender's accepted bytes are an in-order prefix of its data |
| TcpClient.LoneSenderStream | src/simple_uv/tcpclient.cpp:211-233 | with one sender at a time: bytes passed on, held, in the ring and unsent make up all data sent, in order |
| TcpClient.SendAll | src/simple_uv/tcpclient.cpp:211-388 | the same for the client itself: a whole Send of less than 2^31 bytes with a drain after every turn passes exactly its data to uv_write, and ends |
| TcpClient.StepKeeps | src/simple_uv/tcpclient.cpp:211-388 | one turn of a send loop, one read from the ring, one write or the close keeps that conservation |
| TcpClient.TakenOverIff | src/simple_uv/tcpclient.cpp:381-386 | libuv has taken over all bytes passed on exactly when no uv_write was refused |
| TcpClient.TurnStallsIff | src/simple_uv/tcpclient.cpp:220-231 | a turn of the send loop gets nowhere exactly when the ring is full or the remaining length is not positive as a C int |
| TcpClient.ClosedTurn | src/simple_uv/tcpclient.cpp:220-233 | once the client is closed a turn ends its Send and moves nothing |
| TcpClient.TakeLaw | src/simple_uv/tcpclient.cpp:366-380 | the loop thread takes the oldest bytes, up to 10240 at a time |
| TcpClient.PoolKeeps | src/simple_uv/tcpclient.cpp:281-388 | a request is never both free and in flight, through taking, failed and accepted submission and completion |
| TcpClient.PoolLaws | src/simple_uv/tcpclient.cpp:281-388 | requests are taken from the front of the list and go back to its end, but are dropped while more than twenty are listed |
| TcpClient.CTCPClient.SendLoopTurn | src/simple_uv/tcpclient.cpp:220-230 | one pass of the loop refines a turn; it goes on exactly while bytes are left and no close was asked for |
| TcpClient.CTCPClient.WritePiece | src/simple_uv/tcpclient.cpp:221-224 | the critical section, on an open connection |
| TcpClient.CTCPClient.BeginSend | src/simple_uv/tcpclient.cpp:211-219 | a thread enters Send with its data |
| TcpClient.CTCPClient.AskForClose | src/simple_uv/tcpclient.cpp:400 | the flag that ends every Send |
| TcpClient.CTCPClient.SendSome | src/simple_uv/tcpclient.cpp:220-231 | a turn and a drain get some bytes through |
| TcpClient.CTCPClient.TakeChunk | src/simple_uv/tcpclient.cpp:366-380 | a request is taken from the list or allocated and filled from the ring; there is none exactly when the ring is empty |
| TcpClient.CTCPClient.SubmitChunk | src/simple_uv/tcpclient.cpp:381-386 | the held bytes go to uv_write; a refused request returns to the list and its bytes are gone |
| TcpClient.CTCPClient.MoveChunk | src/simple_uv/tcpclient.cpp:366-387 | a turn of the drain moves bytes, or finds the buffer empty |
| TcpClient.CTCPClient.Drain | src/simple_uv/tcpclient.cpp:366-387 | the drain ends with an empty buffer and leaves the senders alone |
| TcpClient.CTCPClient.Recycle | src/simple_uv/tcpclient.cpp:281-295 | a completed request returns to the list, or is freed when the list is long |
| ThreadMsg.DispatchedInPushOrder | src/simple_uv/ThreadMsgBase.cpp:16-73 | for every interleaving of producers and the consumer: dispatched, then batch, then queue is exactly what was pushed, each once; each producer's messages in push order; a tail seen non-null without the lock is still there under it |
| ThreadMsg.EverythingComesOut | src/simple_uv/ThreadMsgBase.cpp:33-73 | from every reachable state the consumer alone dispatches all that was pushed |
| ThreadMsg.RunKeeps | src/simple_uv/ThreadMsgBase.cpp:16-73 | the invariant over all runs |
| ThreadMsg.PushedIsAll | src/simple_uv/ThreadMsgBase.cpp:16-31 | what was pushed is the pushes of the run |
| ThreadMsg.BatchDrains | src/simple_uv/ThreadMsgBase.cpp:58-66 | the inner loop dispatches the batch in order |
| ThreadMsg.CThreadMsgBase.PushBackMsg | src/simple_uv/ThreadMsgBase.cpp:16-31 | links the node behind the tail; the nodes still form one circle in queue order |
| ThreadMsg.CThreadMsgBase.TestTail | src/simple_uv/ThreadMsgBase.cpp:41-50 | the unlocked test |
| ThreadMsg.CThreadMsgBase.TakeBatch | src/simple_uv/ThreadMsgBase.cpp:52-56 | detaches the whole circle |
| ThreadMsg.CThreadMsgBase.DispatchOne | src/simple_uv/ThreadMsgBase.cpp:58-66 | hands over the next node of the detached circle and stops after the last |
| ConfigRoundTrip.RoundTripIff | src/simple_uv/config.cpp:48-136 | what the printer writes parses back to the same map if and only if keys are trimmed and free of newline, "=" and "#", and values are trimmed, free of "#", with continuation lines that are non-blank and free of "=" |
| ConfigRoundTrip.SavedConfigIsStable | src/simple_uv/config.cpp:48-136 | whatever was loaded from any text survives being saved and loaded again |
| ConfigRoundTrip.PrintableComesBack | src/simple_uv/config.cpp:48-59 | the "if" half, in any order of the entries |
| ConfigRoundTrip.LoadKeepsGood | src/simple_uv/config.cpp:68-136 | everything a load produces is printable in that sense |
| ConfigLaws.EntryLaws | src/simple_uv/config.cpp:68-136 | what texts of one to three lines give: an entry, an entry with a comment behind it, a value continued on the next line, a line after an empty line and a line without a value above it |
| ConfigLaws.ConfigExamples | src/simple_uv/config.cpp:48-95 | a printed text, and the entry that an empty delimiter finds in the empty text |
| ConfigLaws.CommentsDoNotMatter | src/simple_uv/config.cpp:93-94 | a line that starts with the comment sign changes nothing wherever it stands, also inside a continued value, with or without a delimiter in it |
| ConfigLaws.FinalNewlineMattersIff | src/simple_uv/config.cpp:107-126 | leaving out the last newline changes the result exactly when the last line continues a value with something that is not blank |
| ConfigLaws.DoubledIff | src/simple_uv/config.cpp:107-126 | that continuation is then stored twice |
| ConfigRoundTrip.DoublingExample | src/simple_uv/config.cpp:107-126 | a two-line text that shows it |
| Config.Read | src/simple_uv/config.cpp:68-136 | the two nested read-ahead loops end on every text and compute what the lines mean, for every delimiter and comment sign, also empty ones |
| Config.ReadValue | src/simple_uv/config.cpp:105-131 | the inner loop stores the continued value and hands back the line read ahead |
| Config.InnerTurn | src/simple_uv/config.cpp:110-126 | a turn of the inner loop consumes input, or the failed state, and keeps the meaning |
| Config.OuterTurn | src/simple_uv/config.cpp:79-95 | a turn of the outer loop does |
| Config.Config.ReadFrom | src/simple_uv/config.cpp:68-136 | entries are added to the old ones, later ones overwrite |
| Config.Config.WriteTo | src/simple_uv/config.cpp:48-59 | prints every entry |
| ConfigText.Trim | src/simple_uv/config.cpp:39-46 | removes the white space at both ends |
| ConfigText.TrimSplit | src/simple_uv/config.cpp:39-46 | what is removed is white space, and what is left does not start or end with any |
| ConfigText.TrimmedAway | src/simple_uv/config.cpp:39-46 | and padding with white space is undone |
| ConfigText.TrimmedCodes | src/simple_uv/config.cpp:39-46 | by character code: any padding of tab, newline, vertical tab, form feed, carriage return and space is undone and no other character is |
| ConfigText.StripStrips | src/simple_uv/config.cpp:93-94 | after stripping there is no comment sign left |
| PunchHole.OneTimerPerPeer | src/client_network/timer_module.cpp:72-108 | in every reachable state two running timers belong to different peers, and only to peers in the room |
| PunchHole.FallbackAfterSixteen | src/client_network/timer_module.cpp:20-45 | after an address response, with no ack, removal, leave or new response for that peer and whatever else happens: 5 LAN then 11 WAN messages, one per firing, at most 16, and after the sixteenth the peer requires relay, its timer is gone and the fallback was called exactly once |
| PunchHole.AttemptRun | src/client_network/timer_module.cpp:20-45 | the state of an attempt after each number of firings |
| PunchHole.OwnFiring | src/client_network/timer_module.cpp:31-44 | one firing moves the attempt one further |
| PunchHole.OtherStep | src/client_network/udp_module.cpp:36-244 | no event for another peer touches it |
| PunchHole.SilentWithoutTimer | src/client_network/timer_module.cpp:93-102 | without a timer and without a new address response nothing more is sent to a peer |
| PunchHole.EndStopsTimer | src/client_network/udp_module.cpp:36-55 | an ack stops the timer and records LAN or WAN success, a LAN one also its address; removal and leave stop it and forget the peer |
| PunchHole.AddLaw | src/client_network/udp_module.cpp:209-222 | adding a new peer with P2P on leaves it pending and asks for its address; with P2P off it needs the relay and is relayed at once; adding a peer that is there changes nothing |
| PunchHole.QuietSteps | src/client_network/udp_module.cpp:36-207 | no other callback but a firing sends or asks for anything; a response for an unknown peer does nothing |
| PunchHole.RelayOnlyAfterAttempts | src/client_network/timer_module.cpp:20-45 | over every run in which nobody switches P2P off, the relay is asked for a peer exactly as often as an attempt for it came to its last firing |
| PunchHole.SixteenthIsLast | src/client_network/timer_module.cpp:31-44 | that firing is the sixteenth of the attempt |
| PunchHole.RunKeeps | src/client_network/udp_module.cpp:36-244 | timers in the map and running timers match one to one, over all runs |
| PunchHole.StepKeeps | src/client_network/udp_module.cpp:36-244 | each handler keeps that |
| PunchHole.CUDPModule.P2PTimer | src/client_network/timer_module.cpp:20-45 | the callback refines a firing |
| PunchHole.CUDPModule.GenerateP2PTimer | src/client_network/timer_module.cpp:72-80 | starts a fresh timer and enters it |
| PunchHole.CUDPModule.RemoveP2PTimer | src/client_network/timer_module.cpp:93-102 | stops and forgets the peer's timer, if any |
| PunchHole.CUDPModule.ClearP2PTimer | src/client_network/timer_module.cpp:104-108 | the loop stops all of them |
| PunchHole.CUDPModule.OnAddrResponse | src/client_network/udp_module.cpp:104-120 | for a peer in the room: both addresses are stored and the LAN attempt starts afresh |
| PunchHole.CUDPModule.OnRecvPunchHoleMsg2 | src/client_network/udp_module.cpp:36-55 | refines the ack |
| PunchHole.CUDPModule.OnAddForwardNode | src/client_network/udp_module.cpp:209-222 | refines adding a peer |
| PunchHole.CUDPModule.OnRemoveForwardNode | src/client_network/udp_module.cpp:196-200 | refines removing a peer |
| PunchHole.CUDPModule.OnLeaveRoom | src/client_network/udp_module.cpp:202-207 | refines leaving the room |
| DotSegments.Dedotdotify | 3rd/curl/lib/dotdot.c:53-180 | on every input: the block holds the result of RFC 3986 section 5.2.4 on the path and then the query unchanged, terminated, and nothing behind the block changes; with two exceptions, stated exactly: a path of nothing but dot prefixes without a query, whose block is never written, and an input that starts with a question mark, whose text runs over the end of the block |
| DotSegments.OverrunIff | 3rd/curl/lib/dotdot.c:153-176 | text and terminator take more than the allocated length and one exactly when the input starts with a question mark, and by how much |
| DotSegments.OverrunExample | 3rd/curl/lib/dotdot.c:153-176 | what is written for one such input |
| DotSegments.UnwrittenExample | 3rd/curl/lib/dotdot.c:94-97 | an input whose block is never written, while the RFC gives the empty path |
| DotSegments.AnswerIsString | 3rd/curl/lib/dotdot.c:168-176 | for every input without a leading question mark the written C string is the answer: it has no zero character inside |
| DotSegments.NoNulAppears | 3rd/curl/lib/dotdot.c:89-166 | the steps bring no zero character in |
| DotSegments.NeverEmptied | 3rd/curl/lib/dotdot.c:153-166 | a text that does not start with a dot leaves something in the output |
| DotSegments.AbsolutePathLaws | 3rd/curl/lib/dotdot.c:53-180 | for every path that starts with "/": the result is such a path, has no "." or ".." segment, is what walking the segments with a stack gives, and removing the dots again changes nothing; it is never the exceptional case |
| DotSegments.RemoveDotsResolves | 3rd/curl/lib/dotdot.c:89-166 | on such paths the step-wise algorithm is the walk over the segments |
| DotSegments.Steps | 3rd/curl/lib/dotdot.c:89-166 | the loop ends and computes the RFC's result in place, inside the block |
| DotSegments.Turn | 3rd/curl/lib/dotdot.c:91-164 | one turn is one step of the RFC |
| DotSegments.UpSteps | 3rd/curl/lib/dotdot.c:117-143 | so are the steps for ".." |
| DotSegments.LastSteps | 3rd/curl/lib/dotdot.c:145-164 | and the last two |
| DotSegments.DropSegment | 3rd/curl/lib/dotdot.c:125-130 | backs up over the last segment of the output |
| DotSegments.MoveSegment | 3rd/curl/lib/dotdot.c:159-163 | moves exactly the first segment |
| DotSegments.AppendQuery | 3rd/curl/lib/dotdot.c:168-176 | memcpy of the query and its terminator, into the block and beyond |
| DotSegments.OneTurn | 3rd/curl/lib/dotdot.c:89-166 | the result, the bound on the output and the shape of what is left survive a step |
| DotSegments.RemoveLastIsPop | 3rd/curl/lib/dotdot.c:121-143 | removing the last segment of a text is dropping the top of the stack |
| DotSegments.ResolveIsDotless | 3rd/curl/lib/dotdot.c:89-166 | the walk leaves no dot segment |
| DotSegments.SegmentLaws | 3rd/curl/lib/dotdot.c:107-163 | whatever was put out before: a name moves on, "." leaves at most a slash, ".." takes the name before it along, above the root there is nothing |
| DotSegments.PrefixLaws | 3rd/curl/lib/dotdot.c:94-105 | dot prefixes of a relative path are dropped |
| DotSegments.RfcExamples | 3rd/curl/lib/dotdot.c:89-166 | the two examples of RFC 3986 section 5.2.4 |
| DotSegments.QueryStays | 3rd/curl/lib/dotdot.c:81-176 | the answer for a path and a query is the result for the path with the same query behind it |
| Base64.RoundTrip | 3rd/curl/lib/base64.c:100-272 | decoding what was encoded gives back every non-empty byte string |
| Base64.ReencodeIff | 3rd/curl/lib/base64.c:45-84 | encoding what was decoded gives back the text exactly when the bits that the padding makes superfluous are zero |
| Base64.NonCanonicalExample | 3rd/curl/lib/base64.c:45-84 | two texts for one byte |
| Base64.UrlDecodableIff | 3rd/curl/lib/base64.c:315-320 | text of the URL encoder can be decoded exactly when it has no "-" and no "_", and exactly when it is also what the standard encoder gives |
| Base64.UrlExample | 3rd/curl/lib/base64.c:315-320 | encoder output that the decoder rejects |
| Base64.Decode | 3rd/curl/lib/base64.c:100-169 | succeeds exactly on non-empty text of a multiple of four characters, all from the alphabet but at most two trailing "="; then fills a buffer of the decoded length and one completely |
| Base64.DecodeQuantum | 3rd/curl/lib/base64.c:45-84 | any four characters but the terminator: the bytes that are not padding (the first always), and their number as a size_t, which wraps around for four equals signs; zero for a foreign character |
| Base64.PaddedGroup | 3rd/curl/lib/base64.c:118-133 | in the groups that pass the position test, padding is exactly the trailing one |
| Base64.DecodeQuantums | 3rd/curl/lib/base64.c:148-159 | the loop over the groups |
| Base64.FindPadding | 3rd/curl/lib/base64.c:120-133 | the position test accepts exactly "=" at the end, at most two |
| Base64.Lookup | 3rd/curl/lib/base64.c:58-67 | the linear search finds the value |
| Base64.Encode | 3rd/curl/lib/base64.c:171-272 | writes the RFC's text and a terminator into a buffer of insize*4/3+4; a size of zero means up to the zero byte |
| Base64.EncodeGroups | 3rd/curl/lib/base64.c:216-258 | the loop over the groups never writes past that buffer |
| Base64.AllocationFitsIff | 3rd/curl/lib/base64.c:195 | with a 64-bit size_t the allocation is large enough exactly for inputs of less than 2^62 bytes |
| Base64.EncodeGroup | 3rd/curl/lib/base64.c:228-256 | masks, shifts and table give one group |
| Base64.Gather | 3rd/curl/lib/base64.c:217-226 | up to three bytes, padded with zeros |
| Base64.MasksAreSextets | 3rd/curl/lib/base64.c:228-233 | the masks and shifts split a 24-bit group into its four sextets |
| Base64.EncodedLength | 3rd/curl/lib/base64.c:269 | the length of the text |
| Base64.AlphabetTables | 3rd/curl/lib/base64.c:36-43 | both alphabets, character by character |
| Base64.TestVectors | 3rd/curl/lib/base64.c:171-272 | test vectors of RFC 4648 section 10 |
| Escape.RoundTrip | 3rd/curl/lib/escape.c:79-205 | decoding what was escaped gives back every byte string, and escaped text is in normal form |
| Escape.ReescapeIff | 3rd/curl/lib/escape.c:79-205 | escaping what was decoded gives back the text exactly when it is unreserved characters and upper-case triplets of other bytes |
| Escape.EscapedComesBack | 3rd/curl/lib/escape.c:79-205 | escaped text passed on as a C string decodes to the same bytes, for every byte string |
| Escape.OnlySafeBytes | 3rd/curl/lib/escape.c:44-65 | the output has only unreserved characters and percent signs and at most triples in length |
| Escape.UnreservedCodes | 3rd/curl/lib/escape.c:44-65 | by character code, the bytes that stand for themselves |
| Escape.UpperCaseTriplets | 3rd/curl/lib/escape.c:126 | every percent sign in the output stands before two upper-case digits |
| Escape.DigitValues | 3rd/curl/lib/escape.c:165-178 | the values of the digits in both cases |
| Escape.EscapeExamples | 3rd/curl/lib/escape.c:79-205 | a byte each way, a percent sign without two digits, and the first byte that is no control byte |
| Escape.EasyEscape | 3rd/curl/lib/escape.c:79-134 | no result for a negative length; otherwise the escaped text, terminated inside the buffer |
| Escape.EscapeAll | 3rd/curl/lib/escape.c:101-131 | the doubling buffer always has room for the next write |
| Escape.UrlDecode | 3rd/curl/lib/escape.c:146-205 | fails exactly when control bytes are rejected and the decoded bytes contain one; otherwise the decoded bytes and their number |
| Escape.NextByte | 3rd/curl/lib/escape.c:162-185 | a percent sign with two digits inside the length is one byte, anything else is itself |
| Escape.DecodeAll | 3rd/curl/lib/escape.c:161-194 | the loop |
| Sasl.EveryDialogue | 3rd/curl/lib/curl_sasl.c:254-628 | whatever the server, the message builders and the network answer: a dialogue takes at most three replies per usable mechanism, at most 27, and the mechanisms it tries, over all cancellations, are the best ones in order, none twice |
| Sasl.ContinueLaw | 3rd/curl/lib/curl_sasl.c:408-628 | a reply moves a dialogue strictly forward or ends it; it succeeds exactly on the final code where that is awaited, ends stopped, and gives up a mechanism only after a cancellation |
| Sasl.BuildingLaw | 3rd/curl/lib/curl_sasl.c:450-621 | on a continuation code: a challenge that cannot be read cancels the mechanism and the dialogue goes on, an answer takes it to a later state of its own, any other error stops it with that error |
| Sasl.RetryLaw | 3rd/curl/lib/curl_sasl.c:593-612 | two replies: after a challenge that cannot be read the next mechanism of the plan is in use, whatever the server says to the cancellation; with none left the dialogue is idle |
| Sasl.OtherCodes | 3rd/curl/lib/curl_sasl.c:435-448 | a code that the state does not await ends the dialogue as denied; the two states without a challenge acknowledge and await the verdict |
| Sasl.GoodDialogue | 3rd/curl/lib/curl_sasl.c:450-569 | with a server and a network that do their part a mechanism awaits the verdict after one answer (PLAIN, EXTERNAL, CRAM-MD5, XOAUTH2) or two (the others) |
| Sasl.CancelledLaw | 3rd/curl/lib/curl_sasl.c:593-600 | after a cancellation the next best mechanism starts; there is none left exactly when this was the last |
| Sasl.CancelLaw | 3rd/curl/lib/curl_sasl.c:594-595 | the exclusive-or removes exactly the mechanism in use |
| Sasl.StartLaw | 3rd/curl/lib/curl_sasl.c:254-401 | a start uses the best mechanism, or reports idle with the state unchanged |
| Sasl.OpeningLaw | 3rd/curl/lib/curl_sasl.c:254-401 | which state a start leads to: the initial response is sent exactly when it is wanted, the mechanism has one, it was built and it is short enough |
| Sasl.FirstStates | 3rd/curl/lib/curl_sasl.c:279-382 | the first state of each mechanism; the initial response saves exactly its first exchange |
| Sasl.NextIsOwned | 3rd/curl/lib/curl_sasl.c:450-605 | each state leads to a later state of the same mechanism; unsupported states are never reached |
| Sasl.DialogueIsShort | 3rd/curl/lib/curl_sasl.c:408-628 | the number of replies is bounded by a measure on mechanisms left and state |
| Sasl.RetriesFollowThePlan | 3rd/curl/lib/curl_sasl.c:593-600 | what is tried later follows the order of preference |
| Sasl.PlanLaws | 3rd/curl/lib/curl_sasl.c:276-382 | the plan holds exactly the enabled and usable mechanisms, each once |
| Sasl.EnabledIs | 3rd/curl/lib/curl_sasl.c:276-382 | the order of preference by name, and for each mechanism the condition of its branch |
| Sasl.SASL.Choose | 3rd/curl/lib/curl_sasl.c:276-382 | the chain of conditions picks the first mechanism of the plan, with its states |
| Sasl.SASL.ChooseByPassword | 3rd/curl/lib/curl_sasl.c:290-324 | from GSSAPI on |
| Sasl.SASL.ChooseLater | 3rd/curl/lib/curl_sasl.c:325-382 | from NTLM on |
| Sasl.SASL.Start | 3rd/curl/lib/curl_sasl.c:254-401 | refines a start |
| Sasl.SASL.Continue | 3rd/curl/lib/curl_sasl.c:408-628 | refines a reply |
| Sasl.SASL.Respond | 3rd/curl/lib/curl_sasl.c:450-569 | the states that react to a continuation in one way |
| Sasl.SASL.Settle | 3rd/curl/lib/curl_sasl.c:607-625 | sends, cancels or stops |

## Left out

- libuv handles, sockets, real threads, wall-clock time, malloc failure and HTTP validation: only their events and results appear, as parameters or as arbitrary event sequences.
- The C++ memory model behind the unlocked tail test: reads and writes are sequentially consistent.
- Exactly-once delivery of media to a peer: a late punch-hole ack can coexist with a relay edge, so it is not claimed.
- Packet reassembly (`CPacketSync::recvdata`): its implementation is not part of this model.
- `net_base.h` and `common.cpp` conversions, the master's session allocation, the signaling timeout, connect, reconnect and keep-alive code, log4z, DumpFile, CPU sampling and the rest of curl: easy members, platform glue or wrappers over foreign code.
- `OPENSSL_cleanse` (src/simple_uv/md5.cpp:261-272): depends on addresses and does not touch the digest.
- Windows and big-endian branches of the conditional code; the EBCDIC conversions of curl, which are the identity elsewhere.
- Framing.uv_msg_t.Read: prefixes are at most 2^31-5, so that prefix and header fit a C int.
- Framing.uv_msg_t.ReadAfterError: only where the new buffer is large enough for what is pending and for the frame it seems to begin; otherwise the window has no sensible size.
- TcpClient.TakenOverIff: a write that libuv took over and that completes with an error (src/simple_uv/tcpclient.cpp:284-292) loses its bytes too; the completion status is not an event.
- CircularBuffer.CPodCircularBuffer.constructor: the capacity is positive, since with none the write positions leave the buffer.
- TcpClient.CTCPClient.SubmitChunk: a refused write loses its bytes, as in the source; conservation counts them as passed on.
- ThreadMsg.CThreadMsgBase.TakeBatch: one consumer thread, as the source uses it.
- ConfigRoundTrip.RoundTripIff: stated for the default delimiter and comment sign.
- MediaServer.CMediaServer.OfflineDetection: the iteration order of the hash table, also over rows inserted while iterating, is an arbitrary sequence of users. A row that `operator[]` inserts may also make the table rehash, which invalidates the iterator of the loop (the table is an unordered_map, src/relay_server_sdk/media_server.h:90); the model assumes that it does not.
- MediaServer.CMediaServer.OnRecvLogoutMsg: a row that `operator[]` inserts has no edges and arbitrary other fields, independent for each user; within one event it is the same each time it is made up for the same user.
- Base64.DecodeQuantum: a zero character, which the source matches with the end of its table (3rd/curl/lib/base64.c:61-67), counts as foreign; none is in the text that the decoder passes on.
- Base64.Encode: the allocation is the mathematical one; `AllocationFitsIff` says for which sizes a 64-bit size_t holds it. The table is one of the two alphabets, so that the length returned is that of the text.
- Sasl.SASL.Respond: the content of the messages is not modelled, only whether one could be made and whether the builder found the challenge malformed.
- Sasl.SASL.Start: support for Kerberos, NTLM and digests at build and run time are parameters of the connection.
