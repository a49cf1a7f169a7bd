# SenderThread: a verified model of PokerTH's network send engine

PokerTH's `SenderThread` (src/net/common/senderthread.cpp) is a send engine that works on one packet at a time. Producers store `(packet, session)` entries in two bounded FIFO queues: a normal one and a low-priority one. The engine's loop runs in its own thread and does these things:
- When idle, it pops one entry, normal queue first.
- It copies the packet into a fixed staging buffer.
- It drains the buffer to the session's socket with non-blocking sends, which may be partial.
- It treats would-block as transient.
- It reports other socket errors through a callback, except "not connected" and "not a socket".
- It abandons a packet that has been pending longer than 20 s. That session's id becomes the single "last invalid session" marker. Low-priority entries for the marked session are then dropped.

The total number of queued packets is the load signal. `operator<` orders engines by it.

The project has three modules:

- `NetTypes` (net_types.dfy) holds the values:
  - bytes, packets and sessions, and queue entries;
  - the answers of `send` and `select`, with the `errno` classes they can carry;
  - callback reports;
  - the constants.
- `SendEngine` (send_engine.dfy) specifies one iteration of the `Main()` loop as a function of an `EngineState` value, the socket's answers and the clock. It has three phases:
  - `IdlePhase`, the dequeue;
  - `DrainPhase`, the send;
  - `TimeoutPhase`, the stall check.

  `Run` and `Transmitted` extend one iteration to a run of many. The lemmas about these functions say what the engine guarantees.
- `Sender` (sender_thread.dfy) holds the class `SenderThread`, written in the source's imperative form:
  - the deques are `seq` fields;
  - `m_tmpOutBuf` is an `array<byte>` filled by a `memcpy` loop and shifted by a `memmove` loop;
  - the size, current session, marker and timer are fields;
  - the error callback is the appended log `netErrors`.

  Each part of the loop body is proved against the matching `SendEngine` function, so `Step` satisfies `State() == SendEngine.Step(old(State()), …)`. `Valid()` is the class invariant. It is preserved by every method and covers:
  - both capacity bounds;
  - the staging buffer's size;
  - "bytes pending ⇒ a session is set and the stall timer is running".

Modelling choices that follow the code:

- **Null packets in batches.** A `NetPacketList` may hold null packets, and the batch store pushes them unchecked. So a queue entry's packet is an `Option`. `Main()` tests `tmpData.first.get()`, which means a null-packet entry at the front of the normal queue does not stop the low-priority queue from being popped in the same iteration. `FetchNext` models exactly that. An entry's session is never null, because every `Send*` checks it.
- **16-bit packet length.** `GetLen()` is read into a `u_int16_t`, so `PacketLen` is the length modulo 65536. A packet of 65536 + k bytes with k ≤ `maxPacketSize` therefore passes the size test, and only its first k bytes are staged and sent.
- **Oversized sends.** A `send` that returns more than the buffer size falls into the full-send branch. This is how the code behaves once its `assert` is compiled out.
- **One-way invariant.** The invariant is one-way, "size > 0 ⇒ session set". A zero-length packet sets the session while the size stays 0.
- **Timer left running.** `RemoveCurSendData` leaves the timer running. After an error the timer can therefore still expire while the engine is idle. The marker then stays as it was, because no session is set.
- **Outside constants.** `MAX_PACKET_SIZE` is defined outside the modelled file, so it is the constructor parameter `maxPacketSize`. `INVALID_SESSION` is also defined outside it; the model fixes it at 0.
- **Build profile.** The `POKERTH_DEDICATED_SERVER` build choice is the constructor flag `dedicatedServer`. It selects the capacities 10000/10000000 or 1000/10000.

One might expect "size > 0 ⇔ session set". The code guarantees only ⇒, because a zero-length packet sets the session with size 0.

## Model

| member | source | states |
|---|---|---|
| NetTypes.PacketLen | src/net/common/senderthread.cpp:185 | the length the engine uses is below 65536, equals the byte count for packets shorter than that, and never exceeds it |
| Sender.SenderThread.constructor | src/net/common/senderthread.cpp:43-46 | a new engine has empty queues, nothing pending, marker INVALID_SESSION, timer stopped, no reports |
| Sender.SenderThread.InternalStore | src/net/common/senderthread.cpp:113-119 | appends the entry at the back exactly when the queue holds fewer than max entries, else leaves it unchanged; the length never exceeds max |
| Sender.SenderThread.InternalStoreList | src/net/common/senderthread.cpp:121-135 | appends every packet of the list in list order, each paired with the session, exactly when size + n < max (strict), else appends nothing; the length stays within max |
| Sender.SenderThread.Send | src/net/common/senderthread.cpp:52-60 | no-op for a null packet or session; otherwise single store on the normal queue with its capacity; the low-priority queue and all other fields are untouched |
| Sender.SenderThread.SendList | src/net/common/senderthread.cpp:62-70 | no-op for an empty list or null session; otherwise batch store on the normal queue only |
| Sender.SenderThread.SendLowPrio | src/net/common/senderthread.cpp:72-80 | no-op for a null packet or session; otherwise single store on the low-priority queue with its capacity only |
| Sender.SenderThread.SendLowPrioList | src/net/common/senderthread.cpp:82-90 | no-op for an empty list or null session; otherwise batch store on the low-priority queue only |
| Sender.SenderThread.GetNumPacketsInQueue | src/net/common/senderthread.cpp:92-105 | the unsigned sum equals the low-priority length plus the normal length: the capacities keep it below 2^32 |
| Sender.SenderThread.Less | src/net/common/senderthread.cpp:107-111 | an engine is less than another iff its total queued count is smaller |
| Sender.SenderThread.LessIsStrictOrder | src/net/common/senderthread.cpp:107-111 | the load order is irreflexive, asymmetric and transitive, and incomparable engines have equal counts |
| Sender.SenderThread.RemoveCurSendData | src/net/common/senderthread.cpp:137-143 | size becomes 0 and the session is cleared; the timer and everything else are unchanged |
| Sender.SenderThread.SignalNetError | src/net/common/senderthread.cpp:227 | a callback invocation is appended to the report log, once |
| Sender.SenderThread.CopyToOutBuf | src/net/common/senderthread.cpp:190 | the first len bytes of the staging buffer become the packet's first len bytes |
| Sender.SenderThread.ShiftOutBuf | src/net/common/senderthread.cpp:248 | the unsent tail is moved to the front of the staging buffer |
| Sender.SenderThread.FetchPacket | src/net/common/senderthread.cpp:155-195 | the new state is IdlePhase of the old one, and the class invariant is kept |
| Sender.SenderThread.SendChunk | src/net/common/senderthread.cpp:196-259 | the new state is DrainPhase of the old one, and the class invariant is kept |
| Sender.SenderThread.CheckTimeout | src/net/common/senderthread.cpp:264-277 | the new state is TimeoutPhase of the old one, and the class invariant is kept |
| Sender.SenderThread.Step | src/net/common/senderthread.cpp:150-278 | one loop iteration changes the state exactly as SendEngine.Step says, and the class invariant is kept |
| NetTypes.SendQueueSize | src/net/common/senderthread.cpp:34-40 | the normal queue's capacity: 10000 in the dedicated-server build, 1000 otherwise |
| NetTypes.SendLowPrioQueueSize | src/net/common/senderthread.cpp:34-40 | the low-priority capacity, 10000000 or 10000; never below the normal capacity, and the two together stay below 2^32 |
| NetTypes.IsBenign | src/net/common/senderthread.cpp:226-237 | the error codes that are never reported: not connected and not a socket |
| SendEngine.Throttled | src/net/common/senderthread.cpp:183 | an entry is throttled iff it came from the low-priority queue and its session is the marked one |
| SendEngine.Admitted | src/net/common/senderthread.cpp:181-186 | an entry is staged iff it has a packet, is not throttled and its 16-bit length fits the buffer |
| SendEngine.Expired | src/net/common/senderthread.cpp:265-267 | the timeout fires iff the timer is running and more than SEND_ERROR_TIMEOUT_MSEC have passed since its start |
| SendEngine.NoProgress | src/net/common/senderthread.cpp:207-251 | an iteration makes no progress iff `send` wrote zero bytes, or would block and the wait did not fail with another error |
| SendEngine.FetchNext | src/net/common/senderthread.cpp:157-179 | the normal queue's front is popped if there is one; the low-priority queue is popped iff the normal queue gave no packet and it is non-empty; the taken entry is a front; nothing is taken iff both queues are empty |
| SendEngine.IdlePhase | src/net/common/senderthread.cpp:155-195 | a draining engine is untouched; each queue is either unchanged or loses exactly its front; an idle engine with either queue non-empty removes at least one entry; the marker and reports are unchanged; the invariant is kept |
| SendEngine.IdlePhaseEffect | src/net/common/senderthread.cpp:155-195 | an idle engine removes exactly what FetchNext took, admitted or not. An admitted entry (packet present, not a throttled low-priority one, length within the buffer) from either queue has its bytes made pending, its session set and the timer restarted at now. Otherwise the engine stays idle, with session and timer unchanged |
| SendEngine.RemoveCurSendData | src/net/common/senderthread.cpp:137-143 | pending bytes and session are cleared; every other part, the timer included, is unchanged |
| SendEngine.Report | src/net/common/senderthread.cpp:224-238 | the callback is invoked exactly once with the session id, kind and code, unless the code is not-connected or not-a-socket |
| SendEngine.DrainPhase | src/net/common/senderthread.cpp:196-259 | an idle engine is untouched; queues and marker are untouched; the invariant is kept |
| SendEngine.DrainPhaseCases | src/net/common/senderthread.cpp:196-259 | the error classification. A partial write keeps the tail. A zero-byte write changes nothing, and so does would-block with a ready, timed-out or would-block wait. A full write clears state and stops the timer. A send error or failed wait that is not would-block abandons the packet and reports it with its kind, unless benign |
| SendEngine.TimeoutPhase | src/net/common/senderthread.cpp:264-277 | while the timer runs its deadline unexpired, nothing changes; once it has run more than SEND_ERROR_TIMEOUT_MSEC, pending and session are cleared, the timer stops, and the marker becomes the current session id (kept when no session is set); no report |
| SendEngine.Step | src/net/common/senderthread.cpp:150-278 | one iteration keeps the invariant: pending bytes fit the buffer, and while any remain a session is set and the stall timer is running (restarted at 191, stopped only together with the size at 256-258 and 274-275) |
| SendEngine.Run | src/net/common/senderthread.cpp:150-278 | a finite run of loop iterations, each fed one input, keeps that invariant |
| SendEngine.Written | src/net/common/senderthread.cpp:201 | the bytes one iteration hands to `send`: none unless `send` reported bytes, and never more than it reported |
| SendEngine.Transmitted | src/net/common/senderthread.cpp:201 | the bytes a run hands to `send`, in call order; never more than the byte counts `send` reported, summed |
| SendEngine.PartialWritesResult | src/net/common/senderthread.cpp:243-259 | in closed form: over a run of non-empty writes inside the deadline, the first SumSent bytes of the packet go out in order; the engine keeps the tail pending with session and timer unchanged, or is idle with no session and the timer stopped once the sum reaches the packet's length |
| SendEngine.PartialWriteStep | src/net/common/senderthread.cpp:243-259 | one non-empty write inside the deadline hands out the first bytes of the packet and leaves the tail pending, or clears the state and stops the timer when it covers the whole packet |
| SendEngine.PartialWrites | src/net/common/senderthread.cpp:243-259 | over a run of non-empty writes inside the deadline, the bytes handed to the socket followed by the pending bytes equal the original packet; the engine returns to idle exactly when the chunks add up to its length, then with no session and the timer stopped; before that, the session and timer start are unchanged (no restart on partial writes) |
| SendEngine.WrittenThenPending | src/net/common/senderthread.cpp:243-259 | in one iteration, the bytes written followed by the new pending bytes are the old pending bytes: nothing is sent twice |
| SendEngine.ZeroByteWriteKeepsState | src/net/common/senderthread.cpp:250-251 | a zero-byte write inside the deadline leaves the whole state unchanged and writes nothing |
| SendEngine.NoProgressKeepsState | src/net/common/senderthread.cpp:207-251 | a no-progress iteration inside the deadline leaves the whole state unchanged and writes nothing |
| SendEngine.StalledSendWaits | src/net/common/senderthread.cpp:207-231 | over a run of no-progress iterations inside the deadline (zero-byte sends, or would-block sends whose wait is ready, times out or fails with would-block), the state is unchanged and no byte reaches the socket |
| SendEngine.StalledSendTimesOut | src/net/common/senderthread.cpp:264-277 | after such a run, the first no-progress iteration past the deadline abandons the packet, stops the timer and sets the marker to the session's id, with nothing reported and the queues untouched |
| SendEngine.MarkerOnlyOnTimeout | src/net/common/senderthread.cpp:269-272 | the marker changes in an iteration only when the timeout check fired with a session set, and then it becomes that session's id |
| SendEngine.NormalFrontStarts | src/net/common/senderthread.cpp:160-192 | an idle engine whose normal front is admitted makes its bytes pending, sets its session, restarts the timer at now and leaves the low-priority queue alone |
| SendEngine.NormalFrontSentWhole | src/net/common/senderthread.cpp:155-259 | an idle engine whose admitted normal front then gets non-empty writes inside the deadline that add up to its length hands the socket exactly that packet's bytes, in order, and ends idle with the front popped, no session and the timer stopped; nothing else changes |
| SendEngine.LowPrioFrontStarts | src/net/common/senderthread.cpp:169-192 | an idle engine with an empty normal queue starts an unthrottled, fitting low-priority front: its bytes become pending, its session is set, the timer restarts at now, and it leaves the low-priority queue |
| SendEngine.LowPrioFrontStartsAfterNullPacket | src/net/common/senderthread.cpp:160-192 | a null-packet normal front is popped and the low-priority front is started in the same iteration |
| SendEngine.FifoAppend | src/net/common/senderthread.cpp:113-119 | appending to the normal queue does not change which entry is popped next, and the rest keep their order |
| SendEngine.FifoAppendLowPrio | src/net/common/senderthread.cpp:169-179 | the same for the low-priority queue when the normal queue is empty |
| SendEngine.ThrottledLowPrioDropped | src/net/common/senderthread.cpp:181-183 | a low-priority entry for the marked session is popped and dropped: the engine stays idle, nothing is written, nothing reported |
| SendEngine.ThrottleSparesNormalQueue | src/net/common/senderthread.cpp:183-192 | a normal-queue entry for the marked session is still started |
| SendEngine.OversizedDropped | src/net/common/senderthread.cpp:185-186 | a packet whose 16-bit length (PacketLen) exceeds the staging buffer, whichever queue it was taken from, is popped but never written and never reported |
| SendEngine.OversizedLowPrioDropped | src/net/common/senderthread.cpp:169-186 | an oversized low-priority front behind an empty normal queue is removed from the low-priority queue, never written, never reported |

## Left out

- Real `send`, `select`, `FD_SET` and `SOCKET_ERRNO` are left out. They are operating-system calls, so each iteration receives their answers as a `SendResult` and a `SelectResult`. Native error codes are represented by their classes: would-block, not connected, not a socket, and any other code.
- The mutexes are left out, and so are the producer threads that run concurrently with the loop. Every queue operation is modelled as one atomic step, so skew between the two length reads in `GetNumPacketsInQueue` is not represented.
- The 10 ms retry sleep `Msleep(SEND_TIMEOUT_MSEC)` and the 10 ms `select` timeout are left out, since time in the model is only the `now` reading. The real clock is left out too: the loop reads the clock once per iteration, as the parameter `now` in milliseconds. That single reading is used both to restart the timer and to check it.
- `ShouldTerminate()`, thread start-up and the infinite loop itself are left out. The model is one iteration (`Step`) and finite runs of iterations (`SendEngine.Run`).
- `LOG_MSG` output on a timeout is left out.
- `shared_ptr` ownership and lifetimes are left out. Null pointers appear only as `None` at the `Send*` entry points and as null packets inside batches.
- The modulo-2^64 `size_t` arithmetic in the batch test `size + n < max` is not modelled, because realistic queue lengths cannot wrap it.
- `NetPacket`, `SessionData` and `SenderCallback` are defined outside the modelled file and are not part of this model. Only the parts used here are represented: a packet's bytes and length, a session's id and socket, and the callback's `SignalNetError`.
