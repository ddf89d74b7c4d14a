# simple-voip relay and jitter buffer, in Dafny

This project models the two stateful cores of simple-voip, a two-party voice
call over UDP.

- **The relay server** (`src/server_handler.cpp`). It keeps a table of two
  session slots (address, name, active flag, time of last packet). It
  dispatches each received datagram by its first byte:
  - a login takes the first free slot and is answered with `LOGIN_OK`, or
    with `SERVER_FULL` when both slots are taken;
  - audio is relayed byte for byte to the other participant, or answered
    with `KEEPALIVE_PONG` when nobody else is there;
  - a discovery request is answered;
  - a logout ends the sender's session.

  Joins and leaves are announced with `SERVER_MESSAGE` notices. On every
  tick, sessions silent for more than `CLIENT_TIMEOUT_SEC` are evicted.
- **The client's receiver and player** (`src/client_handler.cpp`). The
  receive loop confirms the connection on the first `LOGIN_OK` or
  `SERVER_MESSAGE` and resolves the start-up promise once. It queues audio
  payloads on the jitter buffer, a FIFO queue, and stops the client on
  `SERVER_FULL` or on a failed receive. The playback loop takes the front
  payload and writes it to the speakers. A payload that is not exactly one
  frame (`AUDIO_BUFFER_SIZE` = 1920 bytes) is played as a frame of zeros.

Modules:

- `Protocol` (`protocol.dfy`): bytes, constants, packet types, and datagram
  encoding and decoding.
- `Relay` (`relay.dfy`): the server's behaviour as functions from the table,
  the datagram and the clock to the new table and the datagrams sent, with
  the lemmas about them.
- `ServerHandler` (`server_handler.dfy`): the server as it runs. A class
  holds the `clients` array, updated in place, and the sent datagrams. Every
  method is proved to follow `Relay`.
- `ClientModel` (`client_model.dfy`): the receive step and the playback step
  as functions on the client's shared state, with their lemmas.
- `ClientHandler` (`client_handler.dfy`): the client as it runs. A class
  holds the flags, the jitter-buffer queue, the player's frame array and the
  frames written to the speakers. A ghost record of every pushed payload
  proves first-in, first-out playback as an object invariant.
- `Scenarios` (`scenarios.dfy`): the server and client run together:
  capacity, a duplicate login, and a whole call.

Sent datagrams are appended to an output sequence. The clock is an integer
`now` in nanoseconds. A received datagram, or a failed receive, is an input
to a step.

Behaviour of the code worth knowing, which the model keeps:

- The relay has no size check on audio. A datagram is bounded only by the
  1921-byte receive buffer, and audio is relayed with its type byte.
- Playback has no timed wait and no silence on an empty queue. The wait is
  untimed, and a wake-up with an empty queue ends the loop. So the branch
  that fills silence for an empty queue (`src/client_handler.cpp:328-331`)
  cannot be reached.
- A login does not check whether the sender already holds a session. One
  address can hold both slots (`Scenarios.SameAddressTakesBothSlots`).
- Pressing Enter does not end the receiver cleanly. The receive loop tests
  `running` only before it blocks, so when the wait then times out the
  process exits with status 1 (`Scenarios.EnterDuringReceive`).

## Model

| member | source | states |
|---|---|---|
| `Protocol.TypeOf` | src/server_handler.cpp:196 | the type read from a byte is canonical and encodes back to that byte; it is `Other` exactly for unknown bytes |
| `Protocol.Decode` | src/server_handler.cpp:191-197 | a datagram splits into type and payload exactly when it is non-empty, and re-encoding the split gives the datagram back |
| `Protocol.DecodeEncode` | src/client_handler.cpp:232-233 | decoding an encoded packet gives back its type and payload |
| `Protocol.Truncate` | src/server_handler.cpp:53-54 | a receive keeps a prefix of the datagram: all of a datagram that fits, and exactly the first `1 + AUDIO_BUFFER_SIZE` bytes of a longer one |
| `Protocol.Bare` | src/server_handler.cpp:119-121 | a bare packet is one byte, the type code, and decodes back to that type with an empty payload |
| `Protocol.Encode` | src/server_handler.cpp:80-84 | a packet on the wire is its type byte followed by the payload, one byte longer than the payload |
| `Relay.AddressesEqual` | src/server_handler.cpp:70-73 | two addresses are equal exactly when they agree in everything but the family, i.e. in IP and port |
| `Relay.BroadcastUpTo` | src/server_handler.cpp:87-92 | after the loop has visited the first n slots, it has sent the packet exactly once to each visited slot that is active and not excluded, and to no other slot |
| `Relay.Broadcast` | src/server_handler.cpp:76-93 | a broadcast carries the `SERVER_MESSAGE` packet, goes only to sessions in the call, and reaches at most one slot when a slot is excluded |
| `Relay.JoinNotice` | src/server_handler.cpp:125-126 | the join notice carries the name verbatim after a 10-byte prefix and is 30 bytes longer than the name |
| `Relay.PresentNotice` | src/server_handler.cpp:132-133 | the roster notice carries the name verbatim after a 22-byte prefix and is 23 bytes longer than the name |
| `Relay.LeaveNotice` | src/server_handler.cpp:229-230 | the leave notice carries the name verbatim after a 10-byte prefix and is 28 bytes longer than the name |
| `Relay.MessagePacket` | src/server_handler.cpp:80-84 | a server message packet decodes to `SERVER_MESSAGE` carrying exactly the text |
| `Relay.BroadcastReachesReceivers` | src/server_handler.cpp:76-93 | a broadcast sends the message once to each active slot other than the excluded one, in slot order, and to nobody else |
| `Relay.BroadcastSizes` | src/server_handler.cpp:80-84 | every broadcast packet is the type byte followed by the message |
| `Relay.FirstInactive` | src/server_handler.cpp:100-106 | the lowest-index inactive slot, or -1 exactly when both slots are active |
| `Relay.SenderIndex` | src/server_handler.cpp:156-163 | the first active slot whose IP and port equal the sender's, or -1 exactly when there is none |
| `Relay.Login` | src/server_handler.cpp:96-150 | a login sends one to three datagrams, the first to the sender, and otherwise only to sessions in the call; it never disturbs an active session, and only the sender can join |
| `Relay.RelayAudio` | src/server_handler.cpp:153-184 | audio changes at most the time of last packet, and sends at most one datagram: the packet to a session in the call, or a pong to the sender |
| `Relay.Disconnect` | src/server_handler.cpp:229-233 | ending slot i clears its active flag and changes nothing else in the table, and sends at most the leave notice, only to the other slot and only if that slot is active |
| `Relay.Logout` | src/server_handler.cpp:222-237 | a logout changes nothing exactly when the sender has no active session; otherwise it only clears active flags and sends at most one notice, to a session in the call |
| `Relay.HandlePacket` | src/server_handler.cpp:187-242 | handling a datagram sends at most three datagrams, each to the sender or a session in the call, and a slot can become active only for the sender |
| `Relay.Stale` | src/server_handler.cpp:249-250 | only a session whose last packet is strictly in the past can be stale |
| `Relay.EvictIfStale` | src/server_handler.cpp:248-257 | one iteration of the timeout loop clears slot i's flag exactly when it is active and stale, keeps everything else in the table, and sends at most one notice, to the other slot if active |
| `Relay.EvictUpTo` | src/server_handler.cpp:247-259 | after the loop has visited the first n slots, a visited slot stays active exactly when it was active and not stale, unvisited slots are untouched, only active flags change, and at most n notices go to sessions in the call |
| `Relay.CheckTimeouts` | src/server_handler.cpp:245-260 | each slot ends active exactly when it was active and not stale, every other field is kept, and at most two notices go to sessions in the call |
| `Relay.Tick` | src/server_handler.cpp:31-66 | after a tick no active session is stale; datagrams go only to the sender or to sessions in the call; only the sender can have joined |
| `Relay.IgnoredDatagrams` | src/server_handler.cpp:187-241 | an empty datagram, an unknown or unserved type, or a login with an empty or over-long name changes no slot and sends nothing |
| `Relay.LoginTakesLowestFreeSlot` | src/server_handler.cpp:100-121 | with a free slot, login fills the lowest free slot with the sender's address, the name and `now`, leaves the other slot unchanged and first sends `LOGIN_OK` to the sender |
| `Relay.LoginNotices` | src/server_handler.cpp:123-140 | after `LOGIN_OK`, the join notice goes only to the other slot and only if it is active, and then the newcomer gets one notice naming that slot's client |
| `Relay.LoginWhenFull` | src/server_handler.cpp:143-149 | with both slots active, login sends exactly one `SERVER_FULL` to the sender and changes no slot |
| `Relay.AudioFromUnknownSender` | src/server_handler.cpp:153-166 | audio from an address matching no active slot changes nothing and sends nothing |
| `Relay.AudioFromActiveSlot` | src/server_handler.cpp:168-183 | audio from an active slot refreshes only that slot's time, then relays the whole packet to the other slot if active, else sends one `KEEPALIVE_PONG` to the sender |
| `Relay.RelayedAudioDecodes` | src/server_handler.cpp:208-209 | a relayed audio packet goes to the other participant and decodes there to `AUDIO_DATA` with the sender's payload |
| `Relay.LogoutEndsFirstMatch` | src/server_handler.cpp:222-237 | logout, whatever bytes follow the type byte, deactivates the first active slot of the sender, leaves the other slot unchanged, and sends the leave notice only to the other slot if active |
| `Relay.LogoutFromUnknownSender` | src/server_handler.cpp:222-237 | logout, whatever bytes follow the type byte, from an address with no active session changes nothing and sends nothing |
| `Relay.DiscoveryAnswered` | src/server_handler.cpp:212-219 | a discovery request gets one `DISCOVERY_RESPONSE` and changes no slot |
| `Relay.SessionsIsolated` | src/server_handler.cpp:187-241 | handling a datagram never changes an active session whose address differs from the sender's |
| `Relay.TimeoutsEvictExactlyStale` | src/server_handler.cpp:245-260 | the check deactivates exactly the active slots idle for more than the timeout, changes no other field, and sends each leave notice to the slot still active at that moment |
| `Relay.NoStaleSessionAfterTick` | src/server_handler.cpp:47-65 | the check runs on every tick, so after any tick no active slot is stale |
| `Relay.IdleTickOnlyChecksTimeouts` | src/server_handler.cpp:31-66 | a tick with nothing received, or a failed receive, is exactly the timeout check |
| `Relay.TickKeepsTableValid` | src/server_handler.cpp:47-65 | as the clock advances, ticks keep every active slot's name 1 to `MAX_NAME_LENGTH` bytes long and its time not in the future |
| `Relay.LoginKeepsBounds` | src/server_handler.cpp:109-140 | a login with an acceptable name keeps the table invariant, and every datagram it sends fits a receive buffer |
| `Relay.HandleKeepsBounds` | src/server_handler.cpp:200-206 | handling a datagram keeps the table invariant, and every datagram sent fits a receive buffer |
| `Relay.TimeoutsKeepBounds` | src/server_handler.cpp:253-256 | the timeout check keeps the table invariant, and its notices fit a receive buffer |
| `Relay.TickSendsBoundedDatagrams` | src/client_handler.cpp:171 | on a valid table, nothing the server sends in a tick exceeds the peers' receive buffer |
| `ServerHandler.RelayServer.constructor` | src/server_handler.cpp:24 | the server starts with two zeroed, inactive slots and has sent nothing |
| `ServerHandler.RelayServer.FindFreeSlot` | src/server_handler.cpp:100-106 | the slot-scan loop returns the lowest inactive slot, or -1 |
| `ServerHandler.RelayServer.FindSender` | src/server_handler.cpp:155-163 | the slot-scan loop returns the sender's first active slot, or -1 |
| `ServerHandler.RelayServer.BroadcastServerMessage` | src/server_handler.cpp:76-93 | the send loop appends exactly the broadcast datagrams |
| `ServerHandler.RelayServer.ProcessLogin` | src/server_handler.cpp:96-150 | updates the table in place and sends exactly what `Login` prescribes |
| `ServerHandler.RelayServer.ProcessAudioData` | src/server_handler.cpp:153-184 | updates the table in place and sends exactly what `RelayAudio` prescribes |
| `ServerHandler.RelayServer.DisconnectSlot` | src/server_handler.cpp:229-233 | deactivates one slot and broadcasts its leave notice to the slots still active |
| `ServerHandler.RelayServer.ProcessLogout` | src/server_handler.cpp:222-237 | the logout loop ends the sender's first active session, as `Logout` prescribes |
| `ServerHandler.RelayServer.HandleReceivedPacket` | src/server_handler.cpp:187-242 | the dispatcher updates the table and sends exactly what `HandlePacket` prescribes |
| `ServerHandler.RelayServer.EvictSlot` | src/server_handler.cpp:248-257 | the loop body ends slot i in place, and sends its leave notice, exactly when `EvictIfStale` says so |
| `ServerHandler.RelayServer.CheckClientTimeouts` | src/server_handler.cpp:245-260 | the eviction loop updates the table and sends exactly what `CheckTimeouts` prescribes |
| `ServerHandler.RelayServer.ServerTick` | src/server_handler.cpp:31-66 | one loop iteration handles at most one datagram, then always runs the timeout check, as `Tick` prescribes |
| `ClientModel.SetException` | src/client_handler.cpp:217-221 | failing the promise takes effect only on a pending promise; on a settled one it changes nothing |
| `ClientModel.Receive` | src/client_handler.cpp:176-284 | a receive step, also one whose `running` was cleared after confirmation while it waited, keeps the flag/promise invariant; the jitter buffer only grows at the back, by at most one payload; the process exits exactly on a failed or empty receive after confirmation |
| `ClientModel.AudioIsQueued` | src/client_handler.cpp:251-261 | an `AUDIO_DATA` datagram of any size appends its payload, as far as it fits the receive buffer, to the back of the queue and changes nothing else, confirmed or not |
| `ClientModel.ConfirmationIsMonotone` | src/client_handler.cpp:238-246 | the connection becomes confirmed exactly on the first `LOGIN_OK` or `SERVER_MESSAGE`, which fulfils the promise, and never reverts |
| `ClientModel.PromiseResolvedOnce` | src/client_handler.cpp:270-274 | once the promise is settled, a receive step never changes it |
| `ClientModel.ReceiveFailure` | src/client_handler.cpp:184-227 | a failed or empty receive before confirmation fails the promise and clears `running`; after confirmation the process exits |
| `ClientModel.ServerFullStops` | src/client_handler.cpp:268-277 | `SERVER_FULL` always clears `running`, leaves the queue alone, and fails the promise only if it was still pending |
| `ClientModel.OtherTypesIgnored` | src/client_handler.cpp:238-282 | every type but `AUDIO_DATA` and `SERVER_FULL` changes neither the queue nor any flag, except a first `LOGIN_OK` or `SERVER_MESSAGE` |
| `ClientModel.ReceiveAll` | src/client_handler.cpp:176-284 | the receive loop over a run of results appends at most one payload per result and keeps what was queued; a stopped or exited client is left as it is |
| `ClientModel.PromiseSettlesOnce` | src/client_handler.cpp:176-246 | over any run of the receive loop the invariant holds, a settled promise keeps its value, confirmation persists, and the queue only grows at the back |
| `ClientModel.Silence` | src/client_handler.cpp:325 | the silence frame is `AUDIO_BUFFER_SIZE` zero bytes |
| `ClientModel.PlaybackFrame` | src/client_handler.cpp:318-326 | every played frame is exactly `AUDIO_BUFFER_SIZE` bytes: the payload itself if it has that size, zeros otherwise |
| `ClientModel.Frames` | src/client_handler.cpp:314-327 | the frames for queued payloads correspond one to one and in order |
| `ClientModel.Playback` | src/client_handler.cpp:298-336 | a playback step finishes exactly when not running with an empty queue, sleeps exactly when running with an empty queue, and otherwise removes and plays exactly the front payload |
| `ClientModel.WellSizedFramesUnchanged` | src/client_handler.cpp:319-322 | frames of the right size are played unchanged |
| `ClientModel.PlayMany` | src/client_handler.cpp:298-336 | k playback iterations play k frames of one `AUDIO_BUFFER_SIZE` each, remove k payloads and change nothing else |
| `ClientModel.PlayManyInOrder` | src/client_handler.cpp:314-327 | k playback steps take the first k queued payloads and play them in queue order, dropping and reordering none |
| `ClientModel.PlayerDrainsBeforeStopping` | src/client_handler.cpp:298-311 | while the queue is non-empty the player plays, running or not; it stops only with an empty queue and `running` cleared |
| `ClientHandler.VoipClient.constructor` | src/client.cpp:126-127 | the client starts running, unconfirmed, with a pending promise, an empty queue and nothing played |
| `ClientHandler.VoipClient.Push` | src/client_handler.cpp:254-260 | appends one payload to the back of the jitter buffer, keeping the invariant |
| `ClientHandler.VoipClient.ReceiveStep` | src/client_handler.cpp:176-284 | one receive iteration, also after a `RequestStop` that came while it waited, updates the flags, promise and queue exactly as `Receive` says, adds to the push history exactly the payload it queued, and writes nothing else |
| `ClientHandler.VoipClient.RequestStop` | src/client.cpp:26-29 | clears `running` and changes nothing else |
| `ClientHandler.VoipClient.PlaybackStep` | src/client_handler.cpp:298-336 | one playback iteration does what `Playback` says, writes the played frame to the speakers and keeps the invariant: the speakers got one frame per pushed payload, in push order |
| `Scenarios.TwoLogins` | src/server_handler.cpp:96-140 | two logins into the empty table fill slots 0 and 1 with the exact records; both get `LOGIN_OK`; the first hears of the second, and the second is told who is present |
| `Scenarios.ThirdLoginRejected` | src/server_handler.cpp:96-150 | after two logins, a third gets `SERVER_FULL` and no slot changes |
| `Scenarios.SameAddressTakesBothSlots` | src/server_handler.cpp:100-114 | two logins from one address occupy both slots |
| `Scenarios.FrameRelayedAndPlayed` | src/server_handler.cpp:168-178 | in a two-party call, even one where both slots hold the same address, a frame from slot 0 refreshes only that slot, is relayed to slot 1 alone, and slot 1's client queues it and plays it unchanged |
| `Scenarios.EnterDuringReceive` | src/client_handler.cpp:176-205 | when the user stops a confirmed client while its receiver waits, a failed or timed-out receive exits the process rather than leaving the loop, and an audio datagram is still queued |
| `Scenarios.SecondCallerLogsOut` | src/server_handler.cpp:222-237 | in a two-party call, a logout from slot 1 frees that slot, keeps slot 0, and sends slot 0 exactly one leave notice |
| `Scenarios.Call` | src/server_handler.cpp:96-237 | Alice and Bob log in and get the notices. Alice's frame reaches Bob's queue and speakers unchanged. Bob's logout tells Alice and frees his slot |

## Left out

- Sockets, `select`, `recvfrom`, `sendto` and socket options. A received
  datagram is an input to a step; a sent one is appended to an output
  sequence. `address_len` is kept in the table but not in sent datagrams.
- A received datagram longer than the buffer is truncated to it, as on
  Linux. The Windows build reports an error instead.
- Threads, the mutex, the condition variable and `std::atomic`. Each loop
  iteration of the receiver and of the player is one atomic step, although
  only the push and the pop hold the jitter-buffer lock. The interleaving
  kept is the one that matters: `RequestStop` between the receive loop's
  test of `running` and its blocking receive, which `Receive` and
  `ReceiveStep` admit. Other interleavings inside an iteration, and the
  unlocked read of the queue in the playback loop's guard, are not
  modelled. A wait that would sleep is the
  `Blocked` outcome, which changes nothing.
- `std::promise`/`std::future`. The promise is a pending, fulfilled or
  failed value. Fulfilling an already settled promise would throw, but the
  receiver's invariant rules that out.
- `std::exit(1)` is the terminal `exited` flag. The timeout-or-error
  distinction on a failed receive only changes the printed message, so it
  is not modelled.
- `send_thread_func`, `discover_server_on_network` and
  `suppress_alsa_errors`. These are capture, broadcast I/O and
  file-descriptor handling.
- The audio device wrapper (`src/audio.cpp`) and the `main` functions of
  `src/client.cpp` and `src/server.cpp`. Only the run-flag reset of
  `wait_for_enter` is modelled, as `RequestStop`.
- `print_client_info` and all console output.
- The clock. `now` is an integer in nanoseconds, read once per tick: the
  handler and the timeout check of one tick see the same time.
- The byte values of `PacketType`, and the values of `MAX_NAME_LENGTH`,
  `CLIENT_TIMEOUT_SEC` and `PORT`. They are not defined in the modelled
  files. The model uses bytes 1 to 9 for the nine packet types and 50, 1
  and 12345 for the constants. Most properties depend only on the type codes
  being distinct. `Relay.LoginKeepsBounds`, `Relay.HandleKeepsBounds`,
  `Relay.TimeoutsKeepBounds` and `Relay.TickSendsBoundedDatagrams` also
  depend on `MAX_NAME_LENGTH`: a name must be at most 1890 bytes for its join
  notice to fit the 1921-byte receive buffer.
