# Verified models of the CAmkES example applications

The repository's applications are small, but several of them hold state machines or concurrent
protocols that are only right over whole runs.  This project states those in Dafny and proves
what they keep.  `dafny verify dfyconfig.toml` checks everything.

Code that updates arrays, counters and fields in place is a class whose methods have the same
branches and loops; each method is proved to act as a function on values, and the promises are
lemmas about those functions over every run.  Concurrent programs are step relations: every
access to shared state is a step, and any component that can take one may be the next.  What the
environment does (the NIC, the TCP/IP stack, a virtqueue peer, the scheduler) is a parameter:
a list of answers of any values, or any choice of the next step.

- `rings`, `ownership`, `streams`, `bytes`: shared lemmas about cyclic queues, about buffers
  that each have one owner, and about concatenated streams.
- `eth_model`, `eth_driver`: buffer ownership and frame order in the single-component ethernet
  driver, which checks no array bound.
- `tcp_echo_model`, `tcp_echo`, `udp_echo`: its two echo servers, with partial and blocked sends.
- `security_demo`, `pipeline`: the encrypting keyboard pipeline, its bounded buffers, its log
  file, and the interleavings of its two components.
- `async_echo_model`, `async_echo`: message buffers of the asynchronous echo server, and the
  isolation of one connection from the next.
- `uboot_demux`: the multi-client frame demultiplexer, which two applications share.
- `printable`, `fdt_format`, `fdt_walk`: the device-tree printer, as the inverse of the encoding
  in section 5.4 of the Devicetree Specification.
- `pthreads`, `turn_counter`, `dhcp`, `tipc`: the condition-variable program, the
  compare-and-swap counter, the DHCP exchange and the token ring.

Where a comment and its code disagree, the code is modelled and the exact condition is proved:

- `apps/picotcp_single_component/src/udp_echo_socket.c:23-24` says that receiving stops while a
  send is pending.  The loop at line 75 does not test that.  A datagram is kept exactly in the
  calls that `UdpEcho.KeptIffSafe` describes.
- `apps/picotcp_single_component/src/tcp_echo_socket.c:21-22` promises every byte back.  The
  error branch at line 152 drops the rest of a chunk, as `TcpEchoModel.ErrorBreaksEcho` shows;
  `TcpEchoModel.RunEchoesStream` states that the promise holds exactly when that branch is not
  taken.
- `apps/testdataportmux/counter.c:37-39` expects only ID 4 to reach the end for certain.
  `TurnCounter.OnlyFourAndZeroAlwaysExit` shows that ID 0 always does too, and that the other
  three need not.

## Model

| member | source | states |
|---|---|---|
| EthModel.RunConservesRxBuffers | apps/picotcp_single_component/src/ethdriver.c:79-187 | Over every run of allocations, completions, DMA writes and polls, each of the 510 receive buffers is in exactly one of pool, pending ring and NIC, and the three sizes add up to 510, so the pool never outgrows its array |
| EthModel.RunIsFifo | apps/picotcp_single_component/src/ethdriver.c:100-154 | Over every run, the frames the stack accepted followed by those pending are the frames queued by completions, in order, each with the bytes and length it had when it completed |
| EthModel.StepIsFifo | apps/picotcp_single_component/src/ethdriver.c:100-154 | One event: accepted frames followed by the new queue are the old queue followed by the arrival |
| EthModel.DmaKeepsQueue | apps/picotcp_single_component/src/ethdriver.c:86-121 | A NIC write into a buffer it holds changes no pending frame: no buffer is reused while pending |
| EthModel.StepKeepsOwned | apps/picotcp_single_component/src/ethdriver.c:79-154 | Every receive callback keeps one owner per buffer and the ring's spare slot |
| EthModel.OneHolder | apps/picotcp_single_component/src/ethdriver.c:46-77 | Ownership means that each buffer has exactly one holder, once |
| EthModel.PollLoopDelivers | apps/picotcp_single_component/src/ethdriver.c:131-154 | A poll delivers the front of the queue up to its budget or the first refusal, leaves a refused frame at the front, and returns the budget less the number delivered |
| EthModel.AllocateMeans | apps/picotcp_single_component/src/ethdriver.c:86-97 | A buffer is given exactly when the request fits and one is free; it leaves the pool and goes to the NIC, and otherwise nothing changes |
| EthModel.AllocatedWasFree | apps/picotcp_single_component/src/ethdriver.c:94-96 | The buffer named to the NIC was free, is on the NIC and nowhere else |
| EthModel.CompletionMeans | apps/picotcp_single_component/src/ethdriver.c:100-121 | A completion of one buffer is queued as it lies in memory while fewer than 509 are pending; any other returns all its buffers to the pool unread |
| EthModel.PollMeans | apps/picotcp_single_component/src/ethdriver.c:131-154 | Every answer before the last was an acceptance, each moved one frame from the queue to the pool, and the poll stops early only at a refusal |
| EthModel.RunConservesTxBuffers | apps/picotcp_single_component/src/ethdriver.c:79-84 | Over every run of sends and completions each transmit buffer is in exactly one of pool and NIC |
| EthModel.TxStepKeepsStock | apps/picotcp_single_component/src/ethdriver.c:156-187 | A send keeps the stock of buffers, also when raw_tx completes earlier buffers and then fails |
| EthModel.SendCarriesFrame | apps/picotcp_single_component/src/ethdriver.c:168-186 | An accepted send leaves the frame in a buffer that was free, which the NIC then has; a failed one leaves it free; no other buffer changes |
| EthModel.CompletedIsFree | apps/picotcp_single_component/src/ethdriver.c:79-84 | A completed transmit buffer is free again and nothing else moves |
| EthModel.TxFrameStableOnNic | apps/picotcp_single_component/src/ethdriver.c:156-187 | A buffer the NIC holds is never overwritten by a send |
| EthDriver.RxSide.constructor | apps/picotcp_single_component/src/ethdriver.c:215-230 | The filling loop leaves every receive buffer in the pool, in order, and the ring empty |
| EthDriver.RxSide.AllocateRxBuf | apps/picotcp_single_component/src/ethdriver.c:86-97 | The returned buffer was free and is now the NIC's; an oversize request or an empty pool gives nothing and changes nothing |
| EthDriver.RxSide.RxComplete | apps/picotcp_single_component/src/ethdriver.c:100-121 | From any owned state, a completion changes the arrays as the model's Complete says, inside their bounds, and keeps ownership |
| EthDriver.RxSide.QueueOne | apps/picotcp_single_component/src/ethdriver.c:106-113 | A single-buffer completion records its length and is appended to the ring |
| EthDriver.RxSide.ReturnAll | apps/picotcp_single_component/src/ethdriver.c:114-120 | The abort path pushes every buffer of the completion back on the pool, in order |
| EthDriver.RxSide.PicoEthPoll | apps/picotcp_single_component/src/ethdriver.c:131-154 | The polling loop shows the stack the frames, and leaves the state and score, that the one-at-a-time specification gives for any answers |
| EthDriver.RxSide.Drain | apps/picotcp_single_component/src/ethdriver.c:133-148 | The loop itself, for any state whose pool has room for the whole queue |
| EthDriver.RxSide.OfferFront | apps/picotcp_single_component/src/ethdriver.c:138-146 | One pass: the front frame is offered, and retired to the pool only if it was taken |
| EthDriver.TxSide.constructor | apps/picotcp_single_component/src/ethdriver.c:232-247 | The filling loop leaves every transmit buffer in the pool, in order |
| EthDriver.TxSide.TxComplete | apps/picotcp_single_component/src/ethdriver.c:79-84 | A completed buffer returns to the pool's top; the array always has room for it |
| EthDriver.TxSide.PicoEthSend | apps/picotcp_single_component/src/ethdriver.c:156-187 | The frame is copied over a pool buffer and handed over; zero is returned exactly when there was no buffer or raw_tx failed, and then that buffer is back in the pool |
| EthDriver.RoomForReturn | apps/picotcp_single_component/src/ethdriver.c:114-120 | The NIC cannot return more receive buffers than the pool's array has room for |
| TcpEchoModel.RunEchoesStream | apps/picotcp_single_component/src/tcp_echo_socket.c:62-179 | Over every run from start-up, for each live connection: bytes received are bytes sent then exactly the pending ones, if and only if no send of a received chunk has answered with an error since the connection was accepted |
| TcpEchoModel.LostIffReadFailed | apps/picotcp_single_component/src/tcp_echo_socket.c:149-155 | Over every run, from any state, a connection has lost bytes if and only if such an error has occurred for it |
| TcpEchoModel.ServedLosesIffFails | apps/picotcp_single_component/src/tcp_echo_socket.c:137-170 | One call loses bytes if and only if it reads and its answers hold such an error |
| TcpEchoModel.EchoLosesIffReadFails | apps/picotcp_single_component/src/tcp_echo_socket.c:138-170 | The read loop loses bytes if and only if, on the answers of recv and send alone, some chunk's send meets an error before it is gone or blocked |
| TcpEchoModel.PushFailsIff | apps/picotcp_single_component/src/tcp_echo_socket.c:150-155 | A send loop ends in failure exactly for such answers |
| TcpEchoModel.SendErrorLosesChunk | apps/picotcp_single_component/src/tcp_echo_socket.c:151-155 | The input that shows the loss: one byte received, its send answers with an error, and the byte is neither sent nor pending |
| TcpEchoModel.ErrorBreaksEcho | apps/picotcp_single_component/src/tcp_echo_socket.c:62-179 | A whole run from start-up in which the echo promise fails in this way |
| TcpEchoModel.StartIsOk | apps/picotcp_single_component/src/tcp_echo_socket.c:36-48 | The zero-initialised globals satisfy what every run keeps |
| TcpEchoModel.RunKeepsWorld | apps/picotcp_single_component/src/tcp_echo_socket.c:62-179 | Every run keeps sockets distinct, and received = sent + pending + lost in number for every connection |
| TcpEchoModel.ServedKeepsStream | apps/picotcp_single_component/src/tcp_echo_socket.c:107-170 | One call: pending then received is sent then still pending, unless bytes were lost; and the counts add up even then |
| TcpEchoModel.EchoKeepsStream | apps/picotcp_single_component/src/tcp_echo_socket.c:138-170 | The read loop for any answers of recv and send: received is sent then left pending, and only failed sends lose bytes |
| TcpEchoModel.PushSplits | apps/picotcp_single_component/src/tcp_echo_socket.c:108-125 | A send loop splits its data into sent and left over, in order, for any pattern of partial sends |
| TcpEchoModel.PushSendsWhatFits | apps/picotcp_single_component/src/tcp_echo_socket.c:108-125 | A send loop sends exactly as many bytes as the stack takes before it first answers zero or an error, and is done when that is all |
| TcpEchoModel.EchoReadsOn | apps/picotcp_single_component/src/tcp_echo_socket.c:138-170 | Every recv call but the last brings data, all of which counts as received, and with nothing left pending the last one brought none |
| TcpEchoModel.EchoBlockedByZero | apps/picotcp_single_component/src/tcp_echo_socket.c:157-162 | The read loop leaves bytes pending only because a send answered zero |
| TcpEchoModel.ServedMeans | apps/picotcp_single_component/src/tcp_echo_socket.c:107-170 | On a write event the pending bytes are sent as far as the stack takes them; when they are gone, or on a read event with nothing pending, recv is called; otherwise nothing happens |
| TcpEchoModel.HandleMeans | apps/picotcp_single_component/src/tcp_echo_socket.c:66-180 | The call's client is served and gives up its slot on FIN, a connection takes the first free slot or is turned away, and every other slot stays |
| TcpEchoModel.NoReadWhilePending | apps/picotcp_single_component/src/tcp_echo_socket.c:107-139 | recv is called zero times while a send is left pending, and bytes left pending after reading are the end of what the last recv brought |
| TcpEchoModel.BlockedReadIsLast | apps/picotcp_single_component/src/tcp_echo_socket.c:139-167 | Once a send blocks inside the read loop recv is not called again: the blocked chunk is the one the last call brought, and all later answers are unread |
| TcpEchoModel.OthersUntouched | apps/picotcp_single_component/src/tcp_echo_socket.c:66-105 | A call changes no slot but its client's and the free one a new connection takes |
| TcpEchoModel.HandleKeepsDistinct | apps/picotcp_single_component/src/tcp_echo_socket.c:78-105 | Accepting and closing never put one socket in two slots |
| TcpEchoModel.OtherStreamKept | apps/picotcp_single_component/src/tcp_echo_socket.c:78-105 | A reused slot starts with nothing pending, so it never emits the previous client's bytes; other slots keep their streams |
| TcpEcho.Client.ResumeWrite | apps/picotcp_single_component/src/tcp_echo_socket.c:107-133 | The saved bytes are resent from where they stopped; what is left is exactly what the stack did not take, and the flag clears when nothing is |
| TcpEcho.Client.SendSaved | apps/picotcp_single_component/src/tcp_echo_socket.c:109-124 | One send of the saved range and the bookkeeping of its result |
| TcpEcho.Client.EchoChunk | apps/picotcp_single_component/src/tcp_echo_socket.c:149-167 | A received chunk is sent from the front, and on a blocked send exactly the rest is saved |
| TcpEcho.Client.ReadEcho | apps/picotcp_single_component/src/tcp_echo_socket.c:137-170 | The nested receive and send loops give the traffic, pending bytes and number of recv calls of the specification, for any answers |
| TcpEcho.Client.WriteAndRead | apps/picotcp_single_component/src/tcp_echo_socket.c:107-170 | The write and read branches give the slot and the traffic that ServedMeans describes, for any answers |
| TcpEcho.EchoServer.constructor | apps/picotcp_single_component/src/tcp_echo_socket.c:36-48 | The start-up state: five empty slots |
| TcpEcho.EchoServer.FindClient | apps/picotcp_single_component/src/tcp_echo_socket.c:68-75 | The first client with a socket, or none |
| TcpEcho.EchoServer.Accept | apps/picotcp_single_component/src/tcp_echo_socket.c:78-105 | A new connection takes the first free slot with its pending flag cleared, or none if all are taken |
| TcpEcho.Client.ServeEvents | apps/picotcp_single_component/src/tcp_echo_socket.c:107-180 | The same with the FIN branch, which frees the slot |
| TcpEcho.EchoServer.HandleNotification | apps/picotcp_single_component/src/tcp_echo_socket.c:62-185 | The whole callback changes the slots and moves the bytes that HandleMeans describes |
| UdpEcho.KeptIffSafe | apps/picotcp_single_component/src/udp_echo_socket.c:19-38 | The datagram echo holds for every answer of the socket if and only if a pending datagram comes with a write event or there is nothing to receive |
| UdpEcho.SafeCallKeeps | apps/picotcp_single_component/src/udp_echo_socket.c:60-97 | In such a call, pending then received datagrams are those echoed then pending, each with its own bytes, address and port |
| UdpEcho.UnsafeCallLoses | apps/picotcp_single_component/src/udp_echo_socket.c:75-97 | In any other call one more datagram overwrites the pending one: the receive loop does not test pending_len, although the file's comment says receiving stops |
| UdpEcho.HandleCountsReads | apps/picotcp_single_component/src/udp_echo_socket.c:52-84 | One call: queued read events plus recvfrom calls equal the events seen, modulo 2^64 |
| UdpEcho.HandleMeans | apps/picotcp_single_component/src/udp_echo_socket.c:49-99 | A write event resends the pending datagram first, and a refusal ends the call; then read events are served, each datagram received and echoed, until an answer ends the loop |
| UdpEcho.ReceiveLoopMeans | apps/picotcp_single_component/src/udp_echo_socket.c:75-97 | The loop goes on while events are queued, datagrams come and sends are taken, and not longer |
| UdpEcho.CountedMeans | apps/picotcp_single_component/src/udp_echo_socket.c:53-56 | A read event adds one to the 64-bit counter |
| UdpEcho.RunCountsReads | apps/picotcp_single_component/src/udp_echo_socket.c:52-84 | The same over every run |
| UdpEcho.SafeRunEchoes | apps/picotcp_single_component/src/udp_echo_socket.c:49-99 | Over every run of safe calls the datagrams received are those echoed, in order, then at most the one pending |
| UdpEcho.Server.HandleNotification | apps/picotcp_single_component/src/udp_echo_socket.c:49-99 | The callback on the shared buffer and counters does what the specification says |
| UdpEcho.Server.Receive | apps/picotcp_single_component/src/udp_echo_socket.c:75-97 | The receive loop, for any answers |
| UdpEcho.Server.ReceiveOne | apps/picotcp_single_component/src/udp_echo_socket.c:76-96 | One pass: the buffer and peer are overwritten by a successful receive, and the length is saved exactly when the send is refused |
| Rings.FullIffOneSlotLeft | apps/picoserver_uboot/components/EthdriverUboot/src/ethdriver.c:157 | The wrapped-head test says exactly that one slot is left |
| Rings.PushAppends | apps/picoserver_uboot/components/EthdriverUboot/src/ethdriver.c:158-160 | Writing at the head and advancing it appends |
| Rings.PopRemovesOldest | apps/picoserver_uboot/components/EthdriverUboot/src/ethdriver.c:193-196 | Advancing the tail removes the oldest element and no other |
| Crypto.Rot13Rotates | apps/security_demo/components/Crypto/src/crypto.c:30-50 | Letters rotate by 13 within their case, all else stays, and applying it twice is the identity |
| Crypto.EncryptingTwiceIsIdentity | apps/security_demo/components/Crypto/src/crypto.c:30-50 | The same for whole texts |
| Crypto.FullMeans255 | apps/security_demo/include/dataport_buffer.h:36-40 | With 8-bit wrap-around the full test holds exactly with 255 characters queued |
| Crypto.Dataport.HandleCharacter | apps/security_demo/components/Crypto/src/crypto.c:66-95 | A key is appended encrypted unless 255 are queued, and is then discarded |
| Crypto.Dataport.Next | apps/security_demo/components/Transmitter/src/transmitter.c:124-127 | One pass of the drain removes the oldest character |
| Transmitter.Sender.ReceiveData | apps/security_demo/components/Transmitter/src/transmitter.c:109-144 | The drain empties the dataport into both bounded buffers; each holds as much of it as fits, in order |
| Transmitter.Sender.Store | apps/security_demo/components/Transmitter/src/transmitter.c:128-139 | A drained character goes to each buffer that has room |
| Transmitter.Sender.WritePendingMmcLog | apps/security_demo/components/Transmitter/src/transmitter.c:163-186 | A successful write empties the pending buffer and advances the offset; a failed one changes nothing |
| Transmitter.FillSplits | apps/security_demo/components/Transmitter/src/transmitter.c:128-139 | How a drain is split into calls does not matter to what a bounded buffer keeps |
| Transmitter.LogRunAppends | apps/security_demo/components/Transmitter/src/transmitter.c:124-140 | Over every run below 2^32 bytes: the file, as long as total_bytes_written, followed by what is pending is the admitted stream, so a retry neither repeats nor skips |
| Transmitter.LogStepAppends | apps/security_demo/components/Transmitter/src/transmitter.c:163-186 | The same for one drain or one write, failed or not |
| Transmitter.LogStepMeans | apps/security_demo/components/Transmitter/src/transmitter.c:163-186 | A successful write appends everything pending to the file and leaves nothing pending; a failed one changes nothing; arrivals are cut short only by a full buffer |
| Transmitter.WriteKeepsLogOkIff | apps/security_demo/components/Transmitter/src/transmitter.c:165-180 | A write keeps the offset at the file's end if and only if the unsigned count does not wrap |
| Transmitter.DiscardedOnlyWhenFull | apps/security_demo/components/Transmitter/src/transmitter.c:134-139 | A character is left out of the log exactly when it arrives with 4096 pending |
| Pipeline.RunKeepsInv | apps/security_demo/components/Crypto/src/crypto.c:52-95 | Over every interleaving of the two components: mutual exclusion, no lost wakeup, drained then queued is the accepted keys encrypted in order, and drops are recorded only with 255 queued |
| Pipeline.EveryKeyAccounted | apps/security_demo/components/Crypto/src/crypto.c:66-95 | Over every run: the keys pressed are, in order, those that reached the ring and the one in hand; accepted are exactly those that met fewer than 255 characters, and each other one is a drop |
| Pipeline.WriteMeans | apps/security_demo/components/Crypto/src/crypto.c:79-91 | With fewer than 255 queued a key is appended encrypted, and with 255 it is dropped and recorded |
| Pipeline.EveryKeyNotifies | apps/security_demo/components/Crypto/src/crypto.c:93-94 | Every key, dropped or not, ends in one notification |
| Pipeline.StepKeepsWakeup | apps/security_demo/components/Transmitter/src/transmitter.c:233-240 | A non-empty ring is always notified, about to be notified, or being drained |
| Pipeline.StepKeepsStream | apps/security_demo/components/Transmitter/src/transmitter.c:121-144 | No step loses, repeats or reorders a character |
| Pipeline.StepKeepsLock | apps/security_demo/components/Crypto/src/crypto.c:52-64 | Only the owner of the mutex is in its critical section |
| Pipeline.QuietMeansDrained | apps/security_demo/components/Transmitter/src/transmitter.c:233-240 | When neither component can go on without a key, nobody waits for the mutex and every accepted key has been drained |
| Pipeline.StepsUseUpWork | apps/security_demo/components/Transmitter/src/transmitter.c:124-144 | Between two keys only finitely many steps are possible, so that state is reached |
| AsyncEchoModel.RunConservesMessages | apps/picotcp_tcp_echo/components/Echo/src/tcp_echo_socket.c:24-157 | Over every order of connects, disconnects and completions each message is in exactly one place, the pool stays within 510 and is empty while a client is connected, and both queues together stay below 1024 |
| AsyncEchoModel.RunKeepsIsolated | apps/picotcp_tcp_echo/components/Echo/src/tcp_echo_socket.c:27-47 | Over every run that reuses no descriptor too early, completed receives and messages to be sent hold bytes of the connection their descriptor names |
| AsyncEchoModel.EchoesOnlyItsConnection | apps/picotcp_tcp_echo/components/Echo/src/tcp_echo_socket.c:77-81 | A TCP message is put on the transmit queue only with bytes of the connected client's own connection, as many as were received; a stale one is not |
| AsyncEchoModel.SendsOnlyItsConnection | apps/picotcp_tcp_echo/components/Echo/src/tcp_echo_socket.c:77-84 | What is sent for a message, at any point of such a run, was received on the connection that its descriptor names at that moment |
| AsyncEchoModel.IsolatedIffFresh | apps/picotcp_tcp_echo/components/Echo/src/tcp_echo_socket.c:119-142 | Accepting on a descriptor keeps that if and only if no completed receive and no message still to be sent names it |
| AsyncEchoModel.StaleSendReachesNextClient | apps/picotcp_tcp_echo/components/Echo/src/tcp_echo_socket.c:77-142 | A message still to be sent when its descriptor is accepted again holds the old connection's bytes and is bound for the new client |
| AsyncEchoModel.EarlyReuseEchoesStaleBytes | apps/picotcp_tcp_echo/components/Echo/src/tcp_echo_socket.c:47-81 | A completed receive that names a descriptor accepted again is echoed to the new client with the old connection's bytes |
| AsyncEchoModel.SentHandledIsRun | apps/picotcp_tcp_echo/components/Echo/src/echo.c:64-78 | The first loop of async_event is a run of its handlers, so what holds of runs holds across it |
| AsyncEchoModel.ReceivedHandledIsRun | apps/picotcp_tcp_echo/components/Echo/src/echo.c:79-92 | The same for the second loop |
| AsyncEchoModel.PoolHasRoom | apps/picotcp_tcp_echo/components/Echo/src/tcp_echo_socket.c:29-32 | While a TCP message is elsewhere the pool's array has a free slot for it |
| AsyncEchoModel.Sizes | apps/picotcp_tcp_echo/components/Echo/src/udp_echo_socket.c:69-84 | The five places together hold 1019 messages, fewer than a queue's 1024 entries |
| AsyncEchoModel.ReceivedMeans | apps/picotcp_tcp_echo/components/Echo/src/tcp_echo_socket.c:24-88 | Where a received message goes and what its fields become: idle without a client, reading for the connected client if its connection is closed, reading again if it brought nothing, else back whole |
| AsyncEchoModel.SentMeans | apps/picotcp_tcp_echo/components/Echo/src/tcp_echo_socket.c:91-112 | A sent message reads again for the connected client, or is kept idle when there is none |
| AsyncEchoModel.NotifiedMeans | apps/picotcp_tcp_echo/components/Echo/src/tcp_echo_socket.c:119-157 | Connecting readies every idle message for the new descriptor; finishing leaves no client |
| AsyncEchoModel.AsyncEventServesClient | apps/picotcp_tcp_echo/components/Echo/src/echo.c:62-95 | With a client connected, an async_event leaves nothing unhandled and every TCP message it handled names that client |
| AsyncEcho.EchoApp.constructor | apps/picotcp_tcp_echo/components/Echo/src/tcp_echo_socket.c:184-193 | After both set-up loops all TCP messages are idle and all UDP ones ready to receive |
| AsyncEcho.EchoApp.AddUdpMessages | apps/picotcp_tcp_echo/components/Echo/src/udp_echo_socket.c:69-84 | The loop stops one short of NUM_UDP_BUFS, and every enqueue has room |
| AsyncEcho.EchoApp.TcpReceived | apps/picotcp_tcp_echo/components/Echo/src/tcp_echo_socket.c:24-88 | Each branch for a received message: pool, receive queue or transmit queue, with the fields it writes |
| AsyncEcho.EchoApp.TcpSent | apps/picotcp_tcp_echo/components/Echo/src/tcp_echo_socket.c:91-112 | Each branch for a sent message |
| AsyncEcho.EchoApp.UdpReceived | apps/picotcp_tcp_echo/components/Echo/src/udp_echo_socket.c:13-37 | An empty or failed UDP receive is retried, any other is echoed whole |
| AsyncEcho.EchoApp.UdpSent | apps/picotcp_tcp_echo/components/Echo/src/udp_echo_socket.c:40-51 | A sent UDP message is made ready to receive again |
| AsyncEcho.EchoApp.AsyncEvent | apps/picotcp_tcp_echo/components/Echo/src/echo.c:62-95 | Both dequeue loops end with every completion handled, the sent ones first, and conservation kept |
| AsyncEcho.EchoApp.OneSent | apps/picotcp_tcp_echo/components/Echo/src/echo.c:66-77 | One pass of the first loop dispatches on the cookie and keeps conservation |
| AsyncEcho.EchoApp.OneReceived | apps/picotcp_tcp_echo/components/Echo/src/echo.c:81-91 | One pass of the second loop |
| AsyncEcho.EchoApp.HandleNotification | apps/picotcp_tcp_echo/components/Echo/src/tcp_echo_socket.c:114-161 | Connect and disconnect events |
| AsyncEcho.EchoApp.Accept | apps/picotcp_tcp_echo/components/Echo/src/tcp_echo_socket.c:119-142 | A connection empties the whole pool into the receive queue, and no enqueue fails |
| UbootDemux.RunIsFifo | apps/picoserver_uboot/components/EthdriverUboot/src/ethdriver.c:123-203 | Per client, over every run of calls by any clients: frames given to it then those queued are those queued before then those admitted, in order |
| UbootDemux.BatchReachesClient | apps/picoserver_uboot/components/EthdriverUboot/src/ethdriver.c:134-174 | A batch adds to each queue exactly the frames addressed to it, in order, dropping only at 127 queued |
| UbootDemux.ReplyMeans | apps/picoserver_uboot/components/EthdriverUboot/src/ethdriver.c:176-202 | The caller gets its oldest frame whole; the result is 1 exactly if more remain, 0 if it was the last, -1 if there was none; it is notified exactly when the result is not 1 |
| UbootDemux.MulticastIsClassD | apps/picoserver_uboot/components/EthdriverUboot/src/ethdriver.c:74-108 | The masked byte test holds exactly of frames long enough for an IPv4 destination in 224.0.0.0 to 239.255.255.255; broadcast is six bytes of ones |
| UbootDemux.GetsMeans | apps/picoserver_uboot/components/EthdriverUboot/src/ethdriver.c:149-170 | A frame is for the first client with its destination; without one, for every client if it is broadcast or bound for an IPv4 group, and else for nobody |
| UbootDemux.Component.DetectClient | apps/picoserver_uboot/components/EthdriverUboot/src/ethdriver.c:61-72 | The first client with the destination address, or none for a short frame |
| UbootDemux.Component.Dispatch | apps/picoserver_uboot/components/EthdriverUboot/src/ethdriver.c:149-170 | A frame goes to the first matching client, else to all if broadcast or multicast, else to none |
| UbootDemux.Component.EnqueueForAll | apps/picoserver_uboot/components/EthdriverUboot/src/ethdriver.c:155-162 | Every client gets a copy if its ring has room |
| UbootDemux.Component.DrainDriver | apps/picoserver_uboot/components/EthdriverUboot/src/ethdriver.c:134-174 | The loop stops at the first empty or oversize answer |
| UbootDemux.Component.ClientRx | apps/picoserver_uboot/components/EthdriverUboot/src/ethdriver.c:123-203 | The whole call on rings and dataports: queues, result, length and notification as specified, only the caller's dataport written, and only its first bytes |
| UbootDemux.Component.FindSender | apps/picoserver_uboot/components/EthdriverUboot/src/ethdriver.c:177-184 | The last client with the caller's identifier |
| UbootDemux.Component.ServerInit | apps/picoserver_uboot/components/EthdriverUboot/src/ethdriver.c:278-286 | Every client starts with an empty ring |
| UbootDemux.Client.Enqueue | apps/picoserver_uboot/components/EthdriverUboot/src/ethdriver.c:165-169 | A copied frame is appended unless 127 are queued |
| UbootDemux.Client.PassOldest | apps/picoserver_uboot/components/EthdriverUboot/src/ethdriver.c:186-202 | The oldest frame is copied over the front of the dataport and removed |
| PrintableString.WordsIffStringList | apps/fdtgen/fdt_utils.c:24-53 | What the nested loops compute holds exactly of non-empty concatenations of NUL-terminated, non-empty, printable strings |
| PrintableString.UtilIsPrintableString | apps/fdtgen/fdt_utils.c:24-53 | The nested loops return true if and only if the data is such a list, reading inside the length only |
| PrintableString.PrintableBytes | apps/fdtgen/fdt_utils.c:43 | The printable bytes are those from space to tilde, and no string is empty |
| FdtFormat.CellRoundTrip | apps/fdtgen/fdt_utils.c:22 | A big-endian cell is read back as the number that was written |
| FdtWalk.PAlign | apps/fdtgen/fdt_utils.c:20-21 | Aligning an address in a 4-aligned blob aligns the position |
| FdtVisits.TreeVisited | apps/fdtgen/fdt_utils.c:135-179 | For a tree with NOPs anywhere, the token-by-token report without the NOPs is the tree's own report, the depth never goes negative and ends at zero |
| FdtVisits.TreeReadsBack | apps/fdtgen/fdt_utils.c:135-179 | The report of a tree determines it: reading it back gives its names, with a slash for the empty one, its properties and its nesting |
| FdtVisits.NodeReadsBack | apps/fdtgen/fdt_utils.c:137-156 | The same for a node with anything after it |
| FdtVisits.DepthIsNesting | apps/fdtgen/fdt_utils.c:145-156 | Every token is reported at the number of nodes open around it |
| FdtFormat.TokenBytes | apps/fdtgen/fdt_utils.c:135-174 | The encoding byte for byte: token number, name and NUL, or length, name offset and value, each in its place, then zeros to the next boundary |
| FdtVisits.NodeVisited | apps/fdtgen/fdt_utils.c:137-156 | A node is reported as opened, its properties and children one deeper, and closed |
| FdtVisits.NopsDoNotMatter | apps/fdtgen/fdt_utils.c:158-161 | NOPs change neither depth nor the report of the other tokens |
| FdtWalk.DumpBlob | apps/fdtgen/fdt_utils.c:82-179 | Walking a blob whose header points to the encoding of a tree reports exactly that tree, and the tree can be read back from the report; it ends at FDT_END with depth zero right after the block |
| FdtWalk.DumpStructure | apps/fdtgen/fdt_utils.c:134-179 | For any tokens and any ending tag: each token is reported once, in order, the cursor advances to the block's end and no further, and an unknown tag is reported |
| FdtWalk.ReadToken | apps/fdtgen/fdt_utils.c:135-178 | One pass reads one token back from its bytes and stops at the next |
| FdtWalk.ReadName | apps/fdtgen/fdt_utils.c:138-143 | The name itself if there is one, a slash if it is empty, and the padding skipped |
| FdtWalk.ReadProperty | apps/fdtgen/fdt_utils.c:167-177 | Length, name through the strings block, value and form, and the padding skipped |
| FdtWalk.ChooseForm | apps/fdtgen/fdt_utils.c:55-80 | The form in terms of the data: nothing exactly for an empty value, a string for a string list, cells for other multiples of four bytes, else bytes |
| Pthreads.RunKeepsInv | apps/rumprun_pthreads/components/pthreads/pthreads.c:36-90 | For any number of incrementers and every schedule with spurious wakeups: the count is exact, the mutex excludes, and a watcher asleep with the mutex free is below the limit |
| Pthreads.StepKeepsInv | apps/rumprun_pthreads/components/pthreads/pthreads.c:41-89 | Every operation of every thread keeps that |
| Pthreads.JoinsIffLimitReachable | apps/rumprun_pthreads/components/pthreads/pthreads.c:106-115 | A run that can go no further has finished every thread if and only if the limit is at most the increments there are; the count is then all increments plus 125 |
| Pthreads.JoinedCount | apps/rumprun_pthreads/components/pthreads/pthreads.c:110-115 | Whenever all threads have finished the count is exact |
| Pthreads.ProgramPrints145 | apps/rumprun_pthreads/components/pthreads/pthreads.c:28-32 | With the program's numbers nobody stays stuck and the final count is 145 |
| Pthreads.StuckMeansDone | apps/rumprun_pthreads/components/pthreads/pthreads.c:41-88 | If nobody can go on, the mutex is free and all incrementers are done: there is no deadlock among lock holders |
| Pthreads.RunEnds | apps/rumprun_pthreads/components/pthreads/pthreads.c:36-90 | A run is bounded by the work left and the spurious wakeups in it |
| TurnCounter.AlwaysSafe | apps/testdataportmux/counter.c:19-35 | For any number of processes, any limit and every schedule: no swap fails, at most one process is between spin exit and swap, the value stays below limit plus n, and nobody exits below the limit |
| TurnCounter.StepKeepsTurns | apps/testdataportmux/counter.c:21-34 | Every access keeps the copied value current for the process whose turn it is |
| TurnCounter.StepKeepsBound | apps/testdataportmux/counter.c:19-33 | No step passes limit plus n minus one |
| TurnCounter.Settles | apps/testdataportmux/counter.c:19-44 | In every fair schedule the value settles in that range, and both the process that increments at limit minus one and the next one exit |
| TurnCounter.FourAndZeroAlwaysExit | apps/testdataportmux/counter.c:37-42 | With five processes and limit 20 the IDs 4 and 0 always exit, which is one more than the comment expects, and the value never exceeds 24 |
| TurnCounter.StaysSettled | apps/testdataportmux/counter.c:21 | Once the process whose turn it is has left, the value is final and those spinning spin for ever |
| TurnCounter.AlwaysExitsIff | apps/testdataportmux/counter.c:19-44 | For any number of processes and any limit: a process exits in every fair schedule if and only if it is the one that increments at limit minus one or the next one |
| TurnCounter.OthersMaySpinForever | apps/testdataportmux/counter.c:37-39 | For every other process there is a fair schedule in which it never exits |
| TurnCounter.LeavesItBehind | apps/testdataportmux/counter.c:19-33 | In that schedule the process is spinning when the cell reaches the limit and the one whose turn it is leaves |
| TurnCounter.OnlyFourAndZeroAlwaysExit | apps/testdataportmux/counter.c:37-42 | With five processes and limit 20, exactly the IDs 4 and 0 exit in every fair schedule |
| DhcpServer.CallsKeepDistinct | apps/dhcp/src/server.c:31-105 | Whatever is requested, assigned addresses stay pairwise distinct and differ from the server's, and the next offer is found within seven tries |
| DhcpServer.OneOfSeven | apps/dhcp/src/server.c:36-42 | Of any seven successive octets, wrap-around included, one is free whatever the table holds |
| DhcpServer.RequestMeans | apps/dhcp/src/server.c:60-105 | A request is refused exactly for another server, no address, the server's own, or one another client holds; otherwise that client alone holds the address |
| DhcpServer.DiscoverMeans | apps/dhcp/src/server.c:35-42 | The offer is the first address from the octet on that may be offered, and the octet moves just past it |
| DhcpServer.OthersKeepTheirs | apps/dhcp/src/server.c:81-101 | Requests of one client change no other client's entry |
| DhcpServer.Server.Discover | apps/dhcp/src/server.c:31-57 | The search loop ends, offers the first address not excluded, and advances the octet past it |
| DhcpServer.Server.Request | apps/dhcp/src/server.c:60-105 | The reply and the table after a request, in every branch |
| DhcpServer.RunClient | apps/dhcp/src/client.c:25-37 | Run without interruption, the retry loop ends after one round with an address that is then in the table |
| DhcpClients.RunKeepsInv | apps/dhcp/src/client.c:25-37 | However four clients' calls interleave, no request is refused and at most four discovers are made |
| DhcpClients.AllEndWithOwnAddress | apps/dhcp/dhcp.camkes:29-38 | A run that can go no further has given 192.168.1.2 to 192.168.1.5 to one client each, as the table says |
| DhcpClients.RunUsesUpCalls | apps/dhcp/src/client.c:25-37 | Every run takes its calls from the eight there are, so all of them finish |
| DhcpClients.NextOffer | apps/dhcp/src/server.c:36-42 | Each offer is one past the last, because only smaller addresses are held |
| TokenRing.AtMostOnePayload | apps/cakeml_tipc/components/client/client.c:28-95 | In every run at most one payload is undelivered, on a queue or with the filter, a queued payload v is bound for client v mod 4, and deliveries come in order, never more than the limit |
| TokenRing.QuietHasDeliveredAll | apps/cakeml_tipc/components/client/client.c:57-70 | A run that can go no further has made exactly the limit's deliveries |
| TokenRing.QuietHasReturnedAll | apps/cakeml_tipc/components/client/client.c:72-123 | It has returned every buffer; at most one a queue still waits to be freed, since a callback frees one, and none on the filter's queue |
| TokenRing.TwentyDeliveries | apps/cakeml_tipc/components/client/client.c:15 | With the program's limit these are twenty, the last one at client 0 |
| TokenRing.EveryRunEnds | apps/cakeml_tipc/components/client/client.c:28-123 | No interleaving runs for ever: every run comes to rest |
| TokenRing.RunKeepsInv | apps/cakeml_tipc/components/client/client.c:28-123 | Every run keeps the single payload, the buffer bound and the wakeups |
| TokenRing.StepKeepsTwoBuffers | apps/cakeml_tipc/components/client/client.c:35-54 | A queue a client sends on never has more than two buffers in use, since a returned one is freed before each send and the receiver holds one |
| TokenRing.StepKeepsNoticedAt | apps/cakeml_tipc/components/client/client.c:114-123 | A payload on a queue is notified, about to be, or about to be polled |
| TokenRing.StepKeepsValue | apps/cakeml_tipc/cakeml_tipc.camkes:50-55 | Along these connections a payload of value v is always on its way to client v mod 4 |

## Left out

Conditions on the environment:

- EthModel.RunConservesRxBuffers: the NIC returns each buffer it was given once and names no other buffer; addresses are buffer identifiers.
- EthModel.RunConservesTxBuffers: raw_tx and later completions return each accepted buffer once; a failed raw_tx does not complete the buffer it refuses.
- EthDriver.TxSide.PicoEthSend: a length below 12 or above the buffer size is a precondition, since the source asserts or logs a fatal error there.
- TcpEcho.EchoServer.HandleNotification: the asserts on CONN and FIN, the fatal ERR branch, and a known client for every event that indexes the client arrays are preconditions; a CLOSE event only calls the stack.
- UdpEcho.Server.ReceiveOne: a recvfrom that fails or is empty is taken to leave the packet buffer and the peer address as they were.
- Transmitter.LogRunAppends: a failed fatwrite is taken to change nothing on the device, and the run is shorter than 2^32 bytes, beyond which WriteKeepsLogOkIff shows the offset to be wrong.
- AsyncEchoModel.RunKeepsIsolated: an accepted descriptor is not one that a completed, unhandled receive or a message still to be sent names; IsolatedIffFresh shows this to be exact for each accept.
- AsyncEcho.EchoApp.AsyncEvent: buffers that carry neither of the two cookies are only logged by the source and do not occur in the model.
- UbootDemux.Component.ClientRx: the caller's identifier belongs to some client, as the source asserts; the frames of one call are any list the driver may answer.
- FdtWalk.DumpBlob: the structure block is 4-aligned in a 4-aligned blob, and a property's length is below 2^31 because the source reads it into an int.
- Pthreads.JoinsIffLimitReachable: the count is an unbounded integer; the program's own values stay below 146.
- TurnCounter.AlwaysSafe: the shared cell starts at zero, as a fresh dataport does.
- DhcpClients.AllEndWithOwnAddress: the clients call as client.c does; CallsKeepDistinct covers arbitrary requests.
- TokenRing.StepKeepsTwoBuffers: the bound is for the queues clients send on; the number of buffers on the filter's outgoing queue depends on a CakeML library that is not part of this model.
- TokenRing.EveryRunEnds: allocation and enqueueing succeed, the virtqueues are initialised before the first message, and the filter forwards unchanged and polls until nothing is left.

Parts of the repository without a model:

- transmit_pending_eth_buffer in the Transmitter: strncpy zero-fills after a NUL, and the event handling around it is socket plumbing.
- handle_picoserver_notification of the asynchronous echo server: it polls twice per event, so that not every polled event is dispatched.
- client_tx and client_mac of the demultiplexer, and the MAC choice and notifications of server_init.
- The header listing and memory reservations of dump_blob, format versions below 16, and the printed text itself: a string list shows only its first string, so the text cannot be read back.
- The five parallel client arrays of the TCP echo server are one object per index, and the frame slots of the demultiplexer a sequence in the client's object; neither layout is observable.
- The isprint table of other locales than C.
- Socket set-up, printing, logging, memory allocation, DMA mapping and device registers.
- The applications that are wrappers around one remote call, the display and game demos, and the UART filters: their facts are immediate.
- The array reversals of the hierarchical and multiassembly examples: for even lengths their loop leaves the middle pair unswapped.
