# Verified model of the signaling server and its client

A Dafny model of the parts of the WebRTC signaling server, and of the client that talks to it, in
which state and order matter most, with proofs about every input and every run.

- **Reading a WebSocket** (`ws_frame`, `ws_read`, `ws_chunks`, `ws_script`, `ws_offences`): the
  incremental frame parser, the in-place unmasking, the leftover buffer and the reassembly of
  fragments. How a stream is cut into reads changes what is dispatched if and only if a handler closes
  its own connection and further messages would follow in the same read; and what a conforming client
  sends is what the server hears. `ws_offences` says at which frame of any list reading stops, and for
  what reason (sections 5.2 to 5.5 of RFC 6455).
- **Writing a WebSocket** (`ws_write`): senders, the flush goroutine and `Close` interleaving at their
  critical sections, with the order of bytes on the socket as the invariant, and exactly which frames
  are accepted.
- **The room registry** (`room_model`, `room_rules`, `room_invariants`, `room_sweep`, `room_runs`,
  `room_theorems`, `room_epochs`, `room_deadlines`, `room_absence`, `room_admission`, `room_effects`,
  `room_closings`, `room_times`, `room_register`, `room_restarts`, `room_registry`, `room_capacity`):
  every handler as a step on rooms, slots, sessions, tombstones, counters, tokens and disk.
  `room_model` states the steps, `room_registry` is the object whose methods take them, and
  `room_theorems` says what holds in every run. Delivery order does not hold in every run:
  `room_rules` and `room_theorems` say exactly which attaches keep it, and `room_epochs` that every
  other attach can be made to break it. `room_deadlines` says exactly which steps keep the peer
  deadline right, and `room_absence` what an absent peer hears when it comes back. `room_admission`
  says who gets in and what they are told, `room_effects`, `room_closings`, `room_times`,
  `room_register` and `room_restarts` what each step does to each slot, connection, room, id and file,
  and what follows for whole runs. `room_capacity` takes the counting apart at every atomic operation.
- **Negotiation** (`negotiation`): the offer/answer state machine of two peers over ordered channels,
  with microtasks and promises settling in any order (section 3.2 of RFC 8829).
- **The LRU cache and its users** (`lru_ring`, `lru`, `ratelimit`, `tombstone`): a map and a doubly
  linked ring refining a recency list; token buckets, counters and tombstones on top of it.
- **Two buffers** (`persister`, `channel_handle`): the coalescing persister and the data-channel
  handle, each against a simple sequential description.

A room in the model is a record in a store, and sessions and the register refer to it by its place
there. A removed room stays in the store, because stale sessions still point at it: closing through
one can unregister a newer room of the same id, and the invariants cover that. A slot's `log` is what
its connection has been sent since it attached. A room's and a token's `origin` is the creation that
its lineage goes back to; the server keeps neither.

Where the code and its documentation differ, the model follows the code:

- A comment on the persister says that the periodic sweep makes up for requests dropped from a full
  queue (server/internal/state/store.go:243-245); the sweep marks nothing dirty. The model drops them,
  and its results are about accepted requests.
- `dispose` on a channel handle is documented to refuse further sends; a handle with the buffer policy
  goes on queueing, and so does the model (`ChannelHandle.SendAfterDispose`).
- A message whose handler closes its own connection, as closing one's room does, does not stop the
  reading: messages behind it in the same read are still dispatched, those of a later read are not
  (`WsScript.HangUpRun`, and exactly when in `WsChunks.CutsAgreeExactly`).
- The wait that the rate limiter computes is cut to whole nanoseconds, which can make it too short
  (`RateLimit.AdvertisedWaitCanFallShort`), but not under the limits the server sets. What a client is
  told there is cut to milliseconds, and is too short exactly when that cut loses something
  (`RateLimit.WaitsAreExact`, `RateLimit.MillisecondsFallShort`).
- The peer deadline is documented to be set exactly while one slot is occupied (docs/DESIGN.md:1150).
  A join clears it even if the host is away, a late detach of a replaced session sets it, the last one
  to leave sets it for nobody, and a restart sets it for empty rooms. `RoomDeadlines.RunTimedExactly`
  says that nothing else fails, and `RoomDeadlines.LateGuestRun` is a run that does.
- When both sides have reported, the server is documented to release the room after the grace period
  (docs/DESIGN.md:707-714). Snapshots do not hold a pending release, so a restart forgets it
  (`RoomRestarts.ForgottenRelease`); without one it is kept exactly
  (`RoomTimes.ReleasedWhenBothReport`).

`dafny verify dfyconfig.toml` checks the whole project.

## Model

| member | source | states |
|---|---|---|
| `WsFrame.ParseHeader` | server/internal/server/wsconn.go:678-732 | the incremental parser, with its 64-bit length accumulated byte by byte, decides what the layout of section 5.2 of RFC 6455 says about the bytes: need more, a protocol or size error, or a header and its length |
| `WsFrame.HeaderBounds` | server/internal/server/wsconn.go:697-731 | an accepted header has at most 14 bytes and announces at most maxFrame payload bytes; an undecided one is shorter than 14 bytes |
| `WsFrame.HeaderPrefixStable` | server/internal/server/wsconn.go:678-732 | a header once decided, good or bad, is decided the same when more bytes arrive behind it |
| `WsFrame.BigEndianFits64` | server/internal/server/wsconn.go:710-715 | eight length bytes never overflow the 64-bit accumulator |
| `WsFrame.Cipher` | server/internal/server/wsconn.go:538-540 | unmasks buf[from..to] in place and leaves every other byte alone |
| `WsFrame.UnmaskInvolutive` | server/internal/server/wsconn.go:538-540 | masking twice with the same key is the identity, so unmasking once recovers what the client masked |
| `WsFrame.ParsesBack` | server/internal/server/wsconn.go:678-732 | the parser recovers the header of every encoded well-formed masked frame, in any of the three length forms, whatever follows it |
| `WsFrame.AcceptedWasEncoded` | server/internal/server/wsconn.go:678-732 | nothing else is accepted: an accepted header with its payload behind it is, byte for byte, the encoding of a well-formed masked frame; reserved opcodes and lengths in a longer form than needed are accepted too |
| `WsRead.ReadSide.HandleFrame` | server/internal/server/wsconn.go:565-614 | control frames are answered in place, data frames assembled and dispatched, and errors close, exactly as one frame of the reference run does |
| `WsRead.ReadSide.DispatchMessage` | server/internal/server/wsconn.go:618-654 | a text message is handed on, and the connection closed if the handler asks for it; a handler that closes the connection itself closes it once and does not stop the reading; binary is refused |
| `WsRead.ReadSide.ServeFrame` | server/internal/server/wsconn.go:537-543 | one whole frame is unmasked where it lies and handled; the bytes behind it stay masked and unchanged |
| `WsRead.ReadSide.Consume` | server/internal/server/wsconn.go:517-560 | over the leftover buffer and an in-place unmasked chunk, the loop on off leaves the connection exactly where one run over leftover ++ chunk would |
| `WsRead.ReadSide.OnReadable` | server/internal/server/wsconn.go:444-481 | draining the socket read by read equals feeding those chunks one after the other; it goes on exactly while reads fill the buffer or are interrupted and the connection stays open; a failed read closes, and the next read of a connection that its own handler has closed fails |
| `WsRead.RunResumes` | server/internal/server/wsconn.go:517-560 | running a, then b on what is left, is running a ++ b |
| `WsChunks.ChunkingIndependence` | server/internal/server/wsconn.go:444-560 | however the stream is cut, empty reads and pipelined bytes included, what happens is a beginning of what one read of all of it would do; unless a handler closes the connection itself, the events, the state and the leftover are the same |
| `WsChunks.CutDoesNotMatter` | server/internal/server/wsconn.go:444-560 | two ways of cutting the same bytes have the same history if one read of them hands nothing on after a handler has hung up, and end in the same state if nobody hangs up |
| `WsChunks.CutInTwo` | server/internal/server/wsconn.go:517-560 | two reads and one do the same if and only if no handler hung up in the first, or nothing would have come of the second |
| `WsChunks.CutsAgreeExactly` | server/internal/server/wsconn.go:444-560 | from any point of any connection still open, every cut of the bytes that follow has the same history if and only if one read of them hands nothing on after a handler has closed the connection |
| `WsRead.WholeFrameStable` | server/internal/server/wsconn.go:522-543 | a complete frame does the same when more bytes are behind it; an incomplete one is not touched |
| `WsRead.RunBounds` | server/internal/server/wsconn.go:522-559 | while open, the leftover is a suffix of the input exactly as it arrived, not a whole frame, shorter than maxFrame + 14, and the message in progress is at most maxFrame |
| `WsRead.EndOffsetFits` | server/internal/server/wsconn.go:533-535 | off + hlen + length cannot leave the 64-bit range |
| `WsRead.CloseIsLast` | server/internal/server/wsconn.go:658-668 | histories only grow; a connection is closed once, by the read path or by a handler; after a close by the read path nothing happens, and after one by a handler only messages already read are handed on |
| `WsScript.RoundTrip` | server/internal/server/wsconn.go:565-614 | any conforming script of text messages, however fragmented and masked and with control frames between the fragments, makes the connection do what the script means, up to the point where the server itself closes |
| `WsScript.EveryMessageOnceInOrder` | server/internal/server/wsconn.go:517-614 | a server that neither closes nor hangs up is handed exactly the messages sent, in order, and answers each ping with its payload, for every way of cutting the bytes into reads |
| `WsScript.OnlyMessagesSent` | server/internal/server/wsconn.go:444-614 | whatever the server does and however the bytes are cut, the messages it is handed are a beginning of those sent: in order, each once, none made up |
| `WsScript.HangUpRun` | server/internal/room/handlers.go:631-662 | two text messages of which the first closes its own connection, as closing the room does: read together, the second is still handed on; read one by one, it is not |
| `WsOffences.CloseFrameCloses` | server/internal/server/wsconn.go:574-581 | whatever is under way, a close frame closes the connection with the code in its first two bytes, or 1005, and its reason, and nothing behind it is read |
| `WsOffences.StopsAtFirstOffence` | server/internal/server/wsconn.go:565-614 | for every server: reading stops at the first frame of a list that is a close, has a reserved opcode, continues nothing, begins a message inside another, makes one too large, or completes a binary one, and closes for that reason; all before it is acted out as it means, nothing behind it is read |
| `WsOffences.ReadsOn` | server/internal/server/wsconn.go:517-614 | frames none of which is such are all acted out, and what follows is read next, with exactly the unfinished message kept |
| `WsOffences.BadBytesEnd` | server/internal/server/wsconn.go:522-531 | bytes behind them that can be no frame close the connection, as too large if a frame too large is announced and otherwise as a protocol error |
| `WsOffences.ReadsUntilOffence` | server/internal/server/wsconn.go:444-614 | however the bytes are cut into reads, a server that neither closes nor hangs up does all that the frames before the first offence mean and then closes for its reason; without one it goes on with what is unfinished |
| `WsOffences.HandlersAreObeyed` | server/internal/server/wsconn.go:565-654 | over every history: a handler that hangs up has hung up at once, one that asks for a close gets it at once and is handed nothing more, a pong is written exactly if it can be, and none of this happens unasked |
| `WsWrite.WriteSide.TryWrite` | server/internal/server/wsconn.go:273-305 | writes a prefix of the frame and reports how much, through interruptions and partial writes |
| `WsWrite.WriteSide.WriteBytes` | server/internal/server/wsconn.go:236-266 | one critical section: refuse, queue behind pending bytes, or write and start a flusher for the rest |
| `WsWrite.WriteSide.FlushTake` | server/internal/server/wsconn.go:310-324 | the flusher takes the whole pending buffer or lowers the flag and leaves |
| `WsWrite.WriteSide.FlushFailed` | server/internal/server/wsconn.go:325-330 | a failed flush lowers the flag and drops what is pending |
| `WsWrite.WriteSide.Close` | server/internal/server/wsconn.go:386-410 | closes once: tries to send the close frame like any other, then drops the pending bytes and accepts nothing more |
| `WsWrite.NextKeepsInv` | server/internal/server/wsconn.go:236-410 | every step of senders, flushers and Close keeps: one flusher exactly while the flag is up, pending bytes have a flusher, and socket ++ in flight ++ pending is the accepted frames in order |
| `WsWrite.Reachable` | server/internal/server/wsconn.go:236-410 | that invariant holds after every interleaving |
| `WsWrite.PeerReadsAcceptedFrames` | server/internal/server/wsconn.go:236-334 | until a frame is cut short (a direct write that fails part of the way, or a failing flush) the socket holds a prefix of the accepted frames, all of them when idle and open; pending stays below the larger of its limit and the largest frame; at most one flusher |
| `WsWrite.AcceptedExactly` | server/internal/server/wsconn.go:236-266 | after any run: a frame is answered as closed if and only if the connection has been closed; and until a frame is cut short, behind a drain under way it is accepted if and only if the accepted bytes that neither the socket nor the flusher has, together with it, are at most 512 * 1024, otherwise refused as full; with no drain it is accepted unless the socket fails |
| `WsWrite.AnswersAreKept` | server/internal/server/wsconn.go:236-266 | an accepted frame is whole the next of the accepted ones; a refused one leaves nothing behind |
| `WsWrite.SocketHasOneWriter` | server/internal/server/wsconn.go:226-334 | while the flag is up only the one flusher writes; while it is down only a sender with nothing pending does |
| `WsWrite.StepKeepsPrefixExactly` | server/internal/server/wsconn.go:236-334 | from any state, whatever has failed before, a step keeps the socket's bytes a prefix of the accepted frames if and only if what it writes is what is owed next |
| `WsWrite.RunKeepsPrefixExactly` | server/internal/server/wsconn.go:236-334 | over a whole run the peer always reads a prefix if and only if every write fits |
| `WsWrite.UncutWritesFit` | server/internal/server/wsconn.go:236-334 | before a frame is cut short every write fits, except a failing direct write, which fits if and only if it writes nothing |
| `WsWrite.FailedSendKeepsPrefix` | server/internal/server/wsconn.go:250-253 | a direct write that fails leaves the stream a prefix of the accepted frames if and only if it had written nothing |
| `WsWrite.AfterFailedFlush` | server/internal/server/wsconn.go:325-331 | after a failed flush the next direct write keeps the prefix if and only if it begins with what the flusher was writing and what was pending |
| `WsWrite.CutFrameBreaks` | server/internal/server/wsconn.go:250-253 | a run with a failing direct write after which the socket is no prefix of the accepted frames |
| `WsWrite.FailedFlushBreaks` | server/internal/server/wsconn.go:325-331 | a run with a failing flush, whose close frame takes the place of the lost bytes |
| `WsWrite.BrokenStreamRuns` | server/internal/server/wsconn.go:250-331 | either kind of write error can leave bytes that are no prefix of the accepted frames |
| `LruRing.Ring.Remove` | server/internal/lru/lru.go:100-110 | unlinking an element from the doubly linked ring removes it from the sequence and nothing else |
| `LruRing.Ring.MoveToFront` | server/internal/lru/lru.go:43-53 | moving an element to the front permutes the sequence accordingly |
| `Lru.Cache.Get` | server/internal/lru/lru.go:43-53 | returns the value and makes the key the most recent, or reports it absent and changes nothing |
| `Lru.Cache.GetMut` | server/internal/lru/lru.go:57-70 | as Get, with the value changed in place |
| `Lru.Cache.Put` | server/internal/lru/lru.go:75-96 | stores the value in front and returns the entry pushed out of the back, if the cache was full |
| `Lru.Cache.Delete` | server/internal/lru/lru.go:100-110 | forgets exactly the key |
| `Lru.Cache.Has` | server/internal/lru/lru.go:120-126 | reports residence and leaves the order alone |
| `Lru.Cache.Len` | server/internal/lru/lru.go:113-117 | the number of entries |
| `Lru.Cache.Range` | server/internal/lru/lru.go:130-139 | visits the entries from most to least recent until told to stop |
| `LruSpec.RecencyIsLastAccess` | server/internal/lru/lru.go:43-110 | after every operation sequence the cache holds at most its capacity of distinct keys, each accessed before, ordered by the time of its last access in the whole history |
| `LruSpec.EvictsOldest` | server/internal/lru/lru.go:75-96 | a store into a full cache evicts the one key whose last access is oldest in the whole history |
| `RateLimit.Bucket.Take` | server/internal/ratelimit/ratelimit.go:37-56 | refills by elapsed time up to the burst, grants if there is enough, and otherwise advertises the deficit over the rate |
| `RateLimit.TakeStaysInRange` | server/internal/ratelimit/ratelimit.go:37-56 | tokens stay between 0 and the burst |
| `RateLimit.RetryAfter` | server/internal/ratelimit/ratelimit.go:48-55 | a refused request for at most the burst succeeds after waiting d, with nobody taking in between, if and only if d covers the deficit at the refill rate |
| `RateLimit.AdvertisedWait` | server/internal/ratelimit/ratelimit.go:48-55 | one nanosecond more than the advertised wait always suffices; the advertised wait itself suffices exactly when truncation lost nothing |
| `RateLimit.AdvertisedWaitCanFallShort` | server/internal/ratelimit/ratelimit.go:48-55 | three tokens a second, one missing, a limit that the server does not set: the advertised wait is too short |
| `RateLimit.ServersTickEvenly` | server/internal/room/room.go:173-176 | under the server's own two limits a token takes a whole number of nanoseconds |
| `RateLimit.WaitsAreExact` | server/internal/room/handlers.go:57-90 | under such a limit, whatever has been asked before, the wait in nanoseconds always suffices; the milliseconds of the reply suffice if and only if the cut to milliseconds lost nothing, and one millisecond more always does |
| `RateLimit.MillisecondsFallShort` | server/internal/room/handlers.go:57-90 | ten rooms at once, an eleventh half a microsecond later: it is told 11999 milliseconds and refused when they are over |
| `RateLimit.Map.AllowN` | server/internal/ratelimit/ratelimit.go:85-97 | finds or makes the key's bucket in the cache, takes from it, and leaves every other bucket's level alone |
| `RateLimit.GrantedWithinCredit` | server/internal/ratelimit/ratelimit.go:37-97 | what a key is still granted in a window never exceeds its credit there plus one burst per eviction within the window |
| `RateLimit.WindowBound` | server/internal/ratelimit/ratelimit.go:37-97 | in any window [from, to] a key is granted at most burst + rate * (to - from), and one burst more for each time its bucket was evicted within that window |
| `RateLimit.CounterMap.Increment` | server/internal/ratelimit/ratelimit.go:125-135 | counts one more for the key unless that would pass the per-key maximum |
| `RateLimit.CountUpExactly` | server/internal/ratelimit/ratelimit.go:125-135 | a place is taken if and only if fewer than the maximum are, and then it is one more; a refusal changes no count |
| `RateLimit.CounterMap.Decrement` | server/internal/ratelimit/ratelimit.go:139-153 | counts one less; a key that reaches zero leaves the map |
| `RateLimit.TakeAndGiveBack` | server/internal/ratelimit/ratelimit.go:125-153 | taking a room place and giving it back leaves every key's count as it was if and only if the counter had room, knew the key, or had nothing counted for the key it forgot; every other key keeps its count in any case |
| `Tombstone.Store.Add` | server/internal/tombstone/tombstone.go:53-58 | writes or overwrites the tombstone in front of the bounded cache |
| `Tombstone.Store.Has` | server/internal/tombstone/tombstone.go:61-73 | true exactly for an unexpired resident tombstone; an expired one is forgotten on the way |
| `Tombstone.Store.Find` | server/internal/tombstone/tombstone.go:77-89 | as Has, with the entry |
| `Tombstone.Store.Sweep` | server/internal/tombstone/tombstone.go:93-110 | collecting the expired keys and deleting them one by one keeps exactly the live entries, in order |
| `Tombstone.AskForgets` | server/internal/tombstone/tombstone.go:61-73 | an id reported not closed has no resident tombstone afterwards; no other id is affected |
| `Tombstone.BuryMarks` | server/internal/tombstone/tombstone.go:53-58 | a buried id is resident, and no other id becomes so |
| `Tombstone.DropStale` | server/internal/tombstone/tombstone.go:93-110 | deleting the stale keys one by one is keeping the live entries |
| `Tombstone.LiveLookup` | server/internal/tombstone/tombstone.go:93-110 | after a sweep an id is found if and only if it was found and has not expired |
| `RoomRules.NewRoomOk` | server/internal/room/handlers.go:123-143 | a room made now or from a token has counted buffers and dates within its lineage's lifetime |
| `RoomRules.OriginFromToken` | server/internal/token/token.go:109-112 | the whole second a token carries is never after the creation it descends from |
| `RoomRules.RejoinKeepsRoom` | server/internal/room/handlers.go:425-470 | a rejoin, with or without a change of epoch, keeps buffers counted and bounded and dates in range |
| `RoomRules.SignalKeepsRoom` | server/internal/room/handlers.go:557-597 | relaying, buffering or overflowing keeps bufferBytes the sum of the payload lengths, within both limits, and only the opposite role's signals in a buffer |
| `RoomRules.JoinOrderExactly` | server/internal/room/handlers.go:266-278 | a join keeps delivery order if and only if nothing the host has heard, or may be replayed, under its epoch is beyond the guest's last number, which a join does not reset |
| `RoomRules.RejoinOrderExactly` | server/internal/room/handlers.go:442-501 | a rejoin under a new epoch keeps delivery order if and only if a peer that is there has heard nothing under it, or one that is away has nothing of it to be replayed; under the old epoch it always does |
| `RoomRules.UncountedIsHeard` | server/internal/room/handlers.go:557-573 | what a connection has heard although its sender has not counted it is followed by a lower number with the sender's next signal |
| `RoomRules.SignalKeepsOrder` | server/internal/room/handlers.go:557-597 | a signal from any session attached to the role, replaced ones included, keeps delivery order |
| `RoomRules.LeaveKeepsOrder` | server/internal/room/handlers.go:692-735 | a detach keeps delivery order |
| `RoomRules.DeadlineAfterJoin` | server/internal/room/handlers.go:266-270 | after a join the peer deadline is set exactly while one side is alone if and only if the host was there |
| `RoomRules.DeadlineAfterRejoin` | server/internal/room/handlers.go:454-462 | after a rejoin the peer deadline is set exactly while one side is alone |
| `RoomRules.DeadlineAfterLeave` | server/internal/room/handlers.go:692-735 | after a detach it is so if and only if the leaver held the slot with the peer there, or was replaced with the peer away |
| `RoomDeadlines.DeadlineAfterCreate` | server/internal/room/handlers.go:141-155 | a new room has its deadline and its host alone in it |
| `RoomDeadlines.DeadlineAfterRestore` | server/internal/room/snapshot.go:157-184 | a restored room has a deadline with nobody in it, so it never fits |
| `RoomDeadlines.NextTimedExactly` | server/internal/room/handlers.go:67-735 | from a world whose registered rooms all have a deadline exactly while one side is alone, a step leads to another if and only if it is no accepted join without the host, no detach of a replaced session with the peer there or of one not replaced with the peer away and the room kept, and no restart that brings a room back |
| `RoomDeadlines.RunTimedExactly` | server/internal/room/handlers.go:67-735 | in a run the deadlines fit at every point if and only if each of its steps is so |
| `RoomDeadlines.LateGuestRun` | server/internal/room/handlers.go:266-270 | a run from an empty server, of a creation, the host's detach and a join, after which a guest waits alone in a registered room without a deadline |
| `RoomRules.RoundTrip` | server/internal/room/snapshot.go:55-133 | unmarshalling a marshalled room gives back everything but its connections and its pending release |
| `RoomRules.RevivedKeepsRoom` | server/internal/room/snapshot.go:157-184 | a restored room keeps its identity, counts, dates and order, holds no connection, has not expired, and has a fresh deadline from now within its expiry |
| `RoomInvariants.GenerateKeeps` | server/internal/room/room.go:370-378 | a generated id names neither a room nor a resident tombstone, whatever the candidates; asking about them buries nothing |
| `RoomInvariants.BuryKeeps` | server/internal/room/handlers.go:649-650 | a tombstone is resident after it is written, and only its own id must leave the register for the two to stay apart |
| `RoomInvariants.EvictKeeps` | server/internal/room/sweep.go:94-121 | letting go of both connections and removing the room by id keeps count, agreement and register together, also for a room that is no longer registered |
| `RoomInvariants.CloseKeeps` | server/internal/room/handlers.go:649-675 | closing a room, current or stale, buries its id, unregisters it and keeps every invariant |
| `RoomInvariants.CreateKeeps` | server/internal/room/handlers.go:67-197 | creation, and every refusal of it, keeps every invariant; its token dates from now |
| `RoomInvariants.JoinKeeps` | server/internal/room/handlers.go:200-318 | joining, wrong passwords and lockout keep every invariant; the token dates from the room's lineage |
| `RoomInvariants.RejoinKeeps` | server/internal/room/handlers.go:322-529 | rejoining, evicting and recreating keep every invariant |
| `RoomInvariants.DetachKeeps` | server/internal/room/handlers.go:680-735 | a detach keeps every invariant |
| `RoomInvariants.RestoreKeeps` | server/internal/room/snapshot.go:151-205 | restoring any listing of the disk into an empty registry, unreadable files and unknown versions included, establishes every invariant |
| `RoomSweep.EvictAllEffect` | server/internal/room/sweep.go:57-89 | evicting listed rooms one by one clears and unregisters exactly those with a cause |
| `RoomSweep.SweepLeavesNothingDue` | server/internal/room/sweep.go:48-90 | after a sweep at now no registered room has expiresAt, releaseAt or peerDeadlineAt at or before now, rooms not due are untouched and still registered, swept ones hold no connection, and no tombstone is expired |
| `RoomSweep.ShutdownEmpties` | server/internal/room/sweep.go:128-153 | after a shutdown nothing is registered or counted, no connection is held, and no tombstone is written |
| `RoomRuns.NextKeeps` | server/internal/room/handlers.go:67-735 | every step of handlers, sweeps, flushes to disk and restarts keeps all of it, with any clock |
| `RoomRuns.EveryRunIsOk` | server/internal/room/handlers.go:67-735 | in every run, of any length and interleaving and from a fresh start, all of it holds |
| `RoomTheorems.CountIsExact` | server/internal/room/handlers.go:667-755 | in every run roomsGlobal is the number of registered rooms |
| `RoomTheorems.ClosedStaysClosed` | server/internal/room/handlers.go:224-226 | in every run an id with a resident tombstone names no room, so nothing has revived it |
| `RoomTheorems.ClosingBuries` | server/internal/room/handlers.go:631-662 | closing leaves the id unregistered and buried, as closed by a peer at that time |
| `RoomTheorems.BirthsAreCreations` | server/internal/room/handlers.go:123-171 | every recorded lineage goes back to a successful creation of that id at that time in the run, with that password |
| `RoomTheorems.LifetimeIsBounded` | server/internal/room/handlers.go:386-407 | through every chain of recreations, tokens and restarts a room has the password of the creation it descends from, or none if that had none; it ends one room lifetime after it was set up or one token lifetime after its createdAt, whichever comes first, so never later than one token lifetime after that creation; its deadline is never later; its createdAt drifts by less than a second |
| `RoomTheorems.TokensDateFromCreation` | server/internal/token/token.go:109-112 | a token is accepted no later than one token lifetime after the creation it descends from |
| `RoomTheorems.BuffersAreAccounted` | server/internal/room/handlers.go:449-597 | in every run every buffer is counted, bounded by both limits, and filled by the opposite role only |
| `RoomTheorems.OneSlotPerConnection` | server/internal/room/handlers.go:152-470 | in every run a connection in a slot belongs to a session attached to exactly that room and role, so it is in one slot at most, registered or not |
| `RoomTheorems.UnseatedIsClosing` | server/internal/room/handlers.go:435-439 | in every run an attached session that does not hold its slot has been closed by the server |
| `RoomTheorems.DetachUnseatsOnlyItself` | server/internal/room/handlers.go:680-702 | a detach, however late, empties the slots of its own connection and of no other |
| `RoomTheorems.RefusedCreateRollsBack` | server/internal/room/handlers.go:93-121 | a refused creation leaves rooms, sessions and counters as they were |
| `RoomTheorems.RefusedRejoinRollsBack` | server/internal/room/handlers.go:339-384 | a refused rejoin leaves rooms, sessions and counters as they were |
| `RoomTheorems.NextOrderExactly` | server/internal/room/handlers.go:266-597 | a step from a world in order leads to one, in every room and on disk, if and only if it is not an accepted attach under a colliding epoch |
| `RoomTheorems.RunOrderExactly` | server/internal/room/handlers.go:266-597 | a run is in order at every point if and only if every accepted attach in it is fresh |
| `RoomTheorems.DeliveryOrder` | server/internal/room/handlers.go:442-597 | in every run whose accepted attaches are fresh, what a connection hears while it holds a slot, replayed or live, rises strictly along each (role, epoch) and comes from the other role |
| `RoomEpochs.UnfreshSurfaces` | server/internal/room/handlers.go:442-597 | and no weaker freshness would do: after a fresh run, an accepted attach that is not fresh can be followed by at most three ordinary steps at whose end a connection has heard one stream out of order |
| `RoomEpochs.StaleEpochRun` | server/internal/room/handlers.go:442-456 | a run, from an empty server to a host that hears 7 and then 1 of one stream, because its guest took up an old epoch again |
| `RoomEpochs.StaleEpochBreaksOrder` | server/internal/room/handlers.go:442-456 | the same in one room, step by step, with the rejoin that is not fresh |
| `RoomAbsence.KeptWhileAway` | server/internal/room/handlers.go:557-597 | over any run in which a slot stays empty and the process is not restarted, with anything else interleaved in its room and others, its buffer ends as what it held and all that was sent to it, and no sender is told of an overflow, if and only if that fits the limits |
| `RoomAbsence.AwayAndBack` | server/internal/room/handlers.go:442-597 | coming back after such an absence under the epoch it left with, a peer hears in order what was buffered and all that was sent meanwhile if and only if that fits; if not, and only then, a sender was told |
| `RoomEffects.NextSlots` | server/internal/room/handlers.go:67-735 | the whole effect of any step but a restart on any slot: who is in it and under which epoch, all that its connection is told and in which words, the number counted, whether it has reported, and what is buffered, each said from the step and the state before it |
| `RoomEffects.HeardWhileThere` | server/internal/room/handlers.go:475-597 | over any run in which a connection keeps its slot, with anything but a restart interleaved, it hears exactly the notices due to it, in order, and the signals among them are exactly those sent to it, number, epoch, payload and time included |
| `RoomEffects.RejoinTellsPeer` | server/internal/room/handlers.go:475-496 | in every run an accepted rejoin into a registered room tells a peer that is there one thing: peer-reset if and only if the epoch is another than the slot had, and otherwise peer-rejoined; an absent peer is told nothing |
| `RoomClosings.ClosedWith` | server/internal/room/sweep.go:69-153 | in every run a connection in a slot is closed by a step if and only if the step lets go of its room or seats another in its slot, and with the code that belongs to it |
| `RoomAdmission.JoinedExactly` | server/internal/room/handlers.go:200-278 | in every reachable world a join succeeds if and only if the connection has no room, the epoch is good, the id is registered, the guest slot is empty, relay credentials are there, and the password is the room's if it has one |
| `RoomAdmission.JoinAnswers` | server/internal/room/handlers.go:200-265 | what every other join is answered, by what keeps it out |
| `RoomAdmission.WrongPassword` | server/internal/room/handlers.go:237-248 | each wrong password is counted once and changes nothing else, until the last one allowed, which closes the room and buries its id as locked out |
| `RoomAdmission.RejoinedExactly` | server/internal/room/handlers.go:322-423 | a rejoin succeeds if and only if the connection has no room, the epoch is good, the token was signed here and is in time, no limit stands against it, relay credentials are there, and the room is registered, or not closed and there is a place for it; it recreates exactly if it is not registered |
| `RoomAdmission.RejoinRefusalsHold` | server/internal/room/handlers.go:322-423 | every refused rejoin is told a reason that holds |
| `RoomAdmission.CreatedExactly` | server/internal/room/handlers.go:67-121 | a creation succeeds if and only if the connection has no room, no check or limit stands against it, relay credentials and a place are there, and one of the first five candidate ids is neither registered nor closed |
| `RoomAdmission.CreateRefusalsHold` | server/internal/room/handlers.go:67-121 | every refused creation is told a reason that holds |
| `RoomAdmission.SessionAnswers` | server/internal/room/handlers.go:532-645 | outside a room nothing is signalled, reported or closed; inside, only a number that is not positive, an improper payload or an overflow is refused |
| `RoomAdmission.CreatedTells` | server/internal/room/handlers.go:123-197 | the reply to a creation tells what is then registered, its dates, limits and password those asked for, with the creator alone in it |
| `RoomAdmission.JoinedTells` | server/internal/room/handlers.go:266-318 | the reply to a join tells of the room that the connection is then the guest of, and of its host as it then is |
| `RoomAdmission.RejoinedTells` | server/internal/room/handlers.go:442-529 | the reply to a rejoin tells of the room that the connection is then in: whether the peer is there, both epochs, the end, and exactly if the peer is away the deadline, one peer deadline from now or the end of the room |
| `RoomTimes.NextTimes` | server/internal/room/handlers.go:67-735 | the effect of any step but a restart on what a room remembers besides its slots: its release, its deadline with its value, its wrong guesses, its identity and dates |
| `RoomTimes.ReleaseExactly` | server/internal/room/handlers.go:602-628 | in every run, restarts included, a release is pending exactly if since the process started a report has completed the two of that room, and it is one grace period after the last that did |
| `RoomTimes.ReleasedWhenBothReport` | server/internal/room/handlers.go:619-625 | without a restart a release is pending if and only if releasing is configured and at some time both sides had reported |
| `RoomRestarts.ForgottenRelease` | server/internal/room/snapshot.go:94-113 | a run after which both sides of a registered room have reported and no release is pending, because a restart forgot it |
| `RoomRestarts.RestartBringsBack` | server/internal/room/snapshot.go:151-205 | in every run a restart registers exactly the saved rooms worth it, as saved but for connections, pending release and a deadline set anew, and deletes exactly the other files |
| `RoomRegister.RegisterExactly` | server/internal/room/handlers.go:667-675 | in every run a registered id stays where it is, or is taken off the register, and that if and only if the step lets go of a room that bears it, the registered one or an earlier one |
| `RoomRegister.GuessesAreCounted` | server/internal/room/handlers.go:237-248 | over any run without a restart every wrong guess at a room's password has been counted once, and nothing else has |
| `RoomRegister.NoGuessLeftOver` | server/internal/room/handlers.go:237-248 | in every run, restarts included, a registered room has seen fewer wrong guesses than are allowed |
| `RoomRegistry.Registry.CreateRoom` | server/internal/room/handlers.go:67-197 | takes exactly the modelled step, keeps every invariant, and records birth and token |
| `RoomRegistry.Registry.GenerateRoomID` | server/internal/room/room.go:370-378 | the retry loop tries at most five candidates in order |
| `RoomRegistry.Registry.JoinRoom` | server/internal/room/handlers.go:200-318 | takes exactly the modelled step and keeps every invariant |
| `RoomRegistry.Registry.RejoinRoom` | server/internal/room/handlers.go:322-529 | takes exactly the modelled step, in the documented order of checks, and keeps every invariant |
| `RoomRegistry.Registry.Reattach` | server/internal/room/handlers.go:429-501 | the slot part of a rejoin, replay loop included |
| `RoomRegistry.Registry.Signal` | server/internal/room/handlers.go:532-599 | takes exactly the modelled step and keeps every invariant |
| `RoomRegistry.Registry.PeerConnected` | server/internal/room/handlers.go:602-628 | takes exactly the modelled step and keeps every invariant |
| `RoomRegistry.Registry.CloseRoom` | server/internal/room/handlers.go:631-662 | takes exactly the modelled step and keeps every invariant |
| `RoomRegistry.Registry.Detach` | server/internal/room/handlers.go:680-735 | takes exactly the modelled step and keeps every invariant |
| `RoomRegistry.Registry.SweepOnce` | server/internal/room/sweep.go:48-121 | over any visiting order, takes exactly the modelled pass: rooms not due stay registered and untouched, due ones are told why, closed with its code and unregistered |
| `RoomRegistry.Registry.Shutdown` | server/internal/room/sweep.go:128-153 | over any visiting order, tells and closes every connection and leaves nothing registered or counted |
| `RoomRegistry.Registry.SnapshotRoom` | server/internal/room/room.go:203-217 | snapshots exactly the registered rooms, under their own ids |
| `RoomRegistry.Registry.Restore` | server/internal/room/snapshot.go:151-205 | over any file order, restores what is worth it, deletes the rest and what cannot be read, and counts what it registers |
| `RoomCapacity.ActKeepsBalance` | server/internal/room/handlers.go:739-754 | each load, compare-and-swap, publish, delete and release keeps the balance of the count |
| `RoomCapacity.CountIsConserved` | server/internal/room/handlers.go:93-158 | with handlers taken apart, the count is at every point the registered rooms, the places held or not yet given back, and the rooms registered over another; so never less than the registered rooms |
| `RoomCapacity.NeverAboveMax` | server/internal/room/handlers.go:739-749 | unless something is restored, the count never exceeds the maximum at any point |
| `RoomCapacity.ExactAtRest` | server/internal/room/handlers.go:667-675 | at rest the count is exact if and only if no step registered a room under an id that was registered |
| `RoomCapacity.TwoRecreationsAtOnce` | server/internal/room/handlers.go:351-411 | two recreations of one room at once leave the count one too high |
| `Negotiation.Negotiator.NeedsNegotiation` | client/src/rtc/negotiation.ts:58-61 | requests within one microtask collapse into one |
| `Negotiation.Negotiator.RunMicrotask` | client/src/rtc/negotiation.ts:61-74 | negotiates, or discards the responder's first request |
| `Negotiation.Negotiator.Negotiate` | client/src/rtc/negotiation.ts:77-92 | starts an offer, asks for one, or queues behind the exchange under way |
| `Negotiation.Negotiator.HandleStable` | client/src/rtc/negotiation.ts:99-108 | ends the exchange and turns a queued request into exactly one new one, or reports stability |
| `Negotiation.NextKeeps` | client/src/rtc/peer.ts:143-381 | every step of either peer, in any order, keeps a single exchange at a known stage and nothing stuck |
| `Negotiation.NoGlare` | client/src/rtc/negotiation.ts:77-139 | in every run at most one of (offer being created, offer in flight, answer being made, answer in flight or being applied), exactly while the initiator negotiates; the responder never offers; no description meets a wrong signaling state |
| `Negotiation.DescriptionsFit` | client/src/rtc/peer.ts:150-165 | an offer reaches the responder in stable, an answer the initiator in have-local-offer, with nothing else under way there |
| `Negotiation.AtRestNothingIsOwed` | client/src/rtc/negotiation.ts:58-108 | when nothing is left to do, neither side negotiates or has anything queued, both are stable, and every request that was not discarded has been followed by an offer |
| `Negotiation.SomethingToDo` | client/src/rtc/peer.ts:355-381 | unless at rest there is always a step that needs no new request |
| `Negotiation.InternalStepsCost` | client/src/rtc/peer.ts:355-381 | each such step lowers a measure |
| `Negotiation.EveryRunSettles` | client/src/rtc/negotiation.ts:58-108 | after any run, every way of carrying on without new requests ends, within one bound |
| `Negotiation.FirstRequestIsDiscarded` | client/src/rtc/negotiation.ts:64-72 | the responder's first request sends nothing and leaves nothing pending |
| `ChannelHandle.DataChannelHandle.Send` | client/src/rtc/channel-handle.ts:96-123 | hands an open channel the message; otherwise queues, drops or refuses by policy, shifting the oldest out of a full queue |
| `ChannelHandle.Channel.SendAll` | client/src/rtc/channel-handle.ts:232-239 | sends message after message until one throws |
| `ChannelHandle.DataChannelHandle.FlushQueue` | client/src/rtc/channel-handle.ts:228-241 | hands the queue over in order up to a throw, after which the rest is gone |
| `ChannelHandle.DataChannelHandle.HandleOpen` | client/src/rtc/channel-handle.ts:215-220 | an opening channel empties the queue |
| `ChannelHandle.DataChannelHandle.Bind` | client/src/rtc/channel-handle.ts:155-178 | replaces the channel of the previous generation, keeps the queue, and flushes it if the new one is open |
| `ChannelHandle.DataChannelHandle.Unbind` | client/src/rtc/channel-handle.ts:186-198 | lets go of the channel, keeps the queue, and reports a close only if it was open |
| `ChannelHandle.DataChannelHandle.Dispose` | client/src/rtc/channel-handle.ts:206-211 | lets go of the channel and the queue |
| `ChannelHandle.SendAfterDispose` | client/src/rtc/channel-handle.ts:96-123 | a disposed handle refuses a send if and only if its policy is to throw; one that buffers queues it |
| `ChannelHandle.DataChannelHandle.ChannelCloses` | client/src/rtc/channel-handle.ts:222-226 | a closed channel is let go and reported |
| `ChannelHandle.PushKeepsLast` | client/src/rtc/channel-handle.ts:109-117 | shifting on overflow keeps exactly the last few messages, at least one |
| `ChannelHandle.NothingElseIsLost` | client/src/rtc/channel-handle.ts:96-241 | over any run of sends, openings, closings and rebinds, delivered messages then the queue are all the sends in order without those that overflowed: of each silence, all but the last max(1, bufferLimit) |
| `Persister.Persister.Mark` | server/internal/state/store.go:246-265 | queues a request without blocking, or drops it when the queue is full |
| `Persister.Persister.Flush` | server/internal/state/store.go:308-322 | in any iteration order, leaves the disk as obeying the batch's requests one by one in arrival order would |
| `Persister.Persister.Loop` | server/internal/state/store.go:270-301 | over any schedule of arriving requests and wakes, makes exactly the modelled progress: what it has flushed, in which batches and against which memory, received and queued |
| `Persister.NothingIsForgotten` | server/internal/state/store.go:246-301 | over any schedule, requests flushed, received and queued are those admitted, in order; once stopped, all of them are flushed |
| `Persister.CoalescedIsOneByOne` | server/internal/state/store.go:281-322 | keeping only each room's last request and obeying those is obeying all of them |
| `Persister.FlushedIsOneByOne` | server/internal/state/store.go:308-322 | any disk that a coalesced flush can leave is the one that obeying every request in turn leaves |
| `Persister.LastRequestDecides` | server/internal/state/store.go:270-322 | over any batches a room ends as its last request dictates: gone, or what memory held at that flush |

## Left out

- Sockets, epoll, file descriptors, TLS, buffer pools and ticks: reads are arriving chunks, writes are
  schedules of system calls.
- A connection closed by another goroutine in the middle of a read: closes by the read path and by the
  handlers it calls are modelled, and `WsWrite` has the writers' and `Close`'s interleavings.
- JSON: messages and snapshots are records, signal payloads opaque strings with a length; whether a
  payload is a JSON string is an input.
- HMAC, SHA-256, salts and random ids: a token that was never signed does not verify, passwords compare
  as strings, candidate ids are inputs.
- HTTP, metrics, logging, Turnstile and TURN clients, configuration loading: their answers are inputs;
  the per-room TURN cache is not modelled; error replies carry no retry hint, whose rounding is in `RateLimit`.
- Room-id normalization and shard matching: the normalized id, or its absence, is an input.
- A handler reads the clock once; in the server a few handlers read it more than once within a call.
- Sessions and rooms are values in fields of the registry, referred to by number, not objects of their
  own; aliasing between stale sessions and rooms is by reference in the store. Locks are not objects:
  each handler is one step, except in `RoomCapacity` and `WsWrite`.
- Per-IP room counts in the registry: whether the counter allows a room is an input there; the counter
  itself is `RateLimit.CounterMap`. Equality of a count with the rooms an address owns does not hold
  and is not claimed.
- When a change is marked dirty: a flush may save or delete any id at any time, which includes what the
  marks cause; that disk equals memory does not hold and is not claimed.
- `RoomTheorems.DeliveryOrder`: a client may hear a signal again in a later attachment, because a replay does not
  clear the buffer; the claim is per attachment.
- `RoomInvariants.RestoreKeeps`: files that cannot be read, or of an unknown version, are included; a readable file
  that describes a room the server never had is not.
- `RoomEffects.HeardWhileThere`: what is sent, not what arrives: a connection's log is what the registry hands to its
  send buffer, and `WsWrite` says what becomes of accepted frames.
- `RoomAbsence.AwayAndBack`: an absence that spans a restart is not covered; what a restart brings back is what was
  last saved (`RoomRules.RevivedKeepsRoom`).
- `RoomRules.RoundTrip`: rooms and snapshots carry no TURN cache.
- `WsRead.ReadSide.DispatchMessage`: what the handler sends back on the same connection is not an event of the read
  path; whether it asks for a close, or closes the connection itself, overflowing replies included, is.
- `RateLimit.CounterMap.Increment`: the eviction callback is not modelled; the registry passes none.
- `RateLimit.WindowBound`: exact real arithmetic and a clock that does not go back; floating-point rounding is not modelled.
- `Persister.Persister.Flush`: store calls succeed.
- `ChannelHandle.NothingElseIsLost`: for the buffer policy, before disposal and as long as no channel throws; what a throw
  loses is stated by `Send` and `FlushQueue`. Re-entrant listeners, back-pressure and the `drain` event
  are not modelled.
- Destroyed peers, failing promises, ICE candidates, media and the control channel's routing: a peer in
  `Negotiation` lives, and descriptions fail only for a wrong signaling state.
- The rest of the client (storage, manifest, i18n, reconnect) and the load generator.
