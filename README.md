# Not-So-Long co-watch streaming core, in Dafny

Not-So-Long lets two people watch a local video file together. The leader
reads the file in 64 KiB slices. It frames each slice with a 16-byte binary
header, mirrors the slice into its own buffer engine and sends the frame
over a WebRTC data channel. The viewer parses frames into the same kind of
buffer engine. That engine has two active buffers whose roles alternate and
one staging overflow buffer. A one-second tick drains the current buffer into
the decode sink. Small JSON control messages decide when both sides start
playing. A server hands out six-letter room ids and keeps at most two
participants per room.

This project models that core and proves properties of the model:

| module | models |
|---|---|
| `UseMutex` (`use_mutex.dfy`) | the promise-based FIFO mutex of `useMutex` |
| `BufferModel` (`buffer_model.dfy`) | the buffer engine of `useBufferManager` as values and step functions |
| `UseBufferManager` (`use_buffer_manager.dfy`) | the same hook as classes updated in place, each method proved to perform the `BufferModel` step |
| `Bytes`, `MovieServices` (`bytes.dfy`, `movie_services.dfy`) | big-endian 32-bit fields, `createChunkMessage` and `parseChunkMessage` |
| `MoviePlayer` (`movie_player.dfy`) | `CHUNK_SIZE`, the leader's send loop, the viewer's chunk handler and the playback-start guards |
| `PeerContext` (`peer_context.dfy`) | the handler registry, `registerHandler`, the `onmessage` dispatch and `sendControl` |
| `UseMovieStream` (`use_movie_stream.dfy`) | `VIDEO_CONSTRAINTS`, `detectVideoFormat` and `validateVideoFile` |
| `RoomUtils` (`room_utils.dfy`) | room id generation, the unique-id search, create, join, leave and the membership check |
| `Wrappers` (`wrappers.dfy`) | `Option` and `Result` |

Some inputs of the real program become explicit inputs of the model:
- the clock is `now`, or `clock` for the eight bytes of a Float64 `Date.now()`
- `Math.random` draws are a function from draw index to a digit 0..25
- the file is its byte sequence
- `canPlayType` is a function parameter
- the decode sink's `updating` flag is a parameter
- whether `video.play()` succeeds is a parameter
- which handlers throw is a set of handler ids

The Mongo room collection is a map from room id to room.

Where the code departs from the protocol it is meant to implement, the model
follows the code and proves the departure as a lemma:
- The buffers keep only `{size, data}`, so a chunk's sequence number is lost once it is added.
- A chunk that does not fit its target buffer is dropped silently. No other buffer is tried.
- The refill from staging moves whole chunks while the moved total is below the room in standby. The last chunk can overshoot that room (`MoveCountBounds`, `SwapEffect`).
- `onBufferLow` fires on every health update at or below 45 MiB, not only when the total crosses the threshold.
- The flags word at offset 12 overwrites the low half of the timestamp at offset 8, so the timestamp does not survive a round trip (`TimestampClobbered`).
- The parser never compares the declared size with the payload (`PayloadLengthUnchecked`). It fails only when the buffer is shorter than the header.
- The leader computes `isLastChunk` with the same test that stopped the loop, so the flag is always false (`FramesParse`).
- `ControlMessageTypes` has no `MOVIE_READY` or `MOVIE_BUFFER_LOW`. `sendControl` refuses both, and registering a handler for them is refused (`MissingControlTypesNeverSent`, `ControlRegistrationRule`).
- Binary chunk frames reach `onmessage`, whose `JSON.parse` throws on them, so they never reach a handler (`BinaryFramesDropped`).
- Releases in `removeChunk` are unbalanced. When current is empty it releases that mutex early. If standby is empty too, its `finally` releases the same mutex a second time. If it switches instead, the `finally` releases the new current's mutex, which it never acquired. `addChunk` also releases in a `finally` after an acquire that timed out. The effect of such releases is stated on the mutex steps (`DoubleReleaseOnFreeMutex`, `StrayReleaseAdmitsSecondHolder`).
- `joinRoom` tests "full" before "already a member", so a member of a full room is refused (`MemberOfFullRoomRefused`, `SecondJoinerCannotRejoin`).
- Format detection runs substring tests on the hex text, not on bytes, so an unaligned match counts (`UnalignedMatchIsMp4`). The QuickTime brand test can never decide (`QuickTimeBrandUnreachable`). A WebM/Matroska EBML header is never reported as Matroska (`EbmlNeverMatroska`).
- The allow-list `find` accepts any format that starts with an allowed mime (`PrefixMatchAdmits`).

## Model

| member | source | states |
|---|---|---|
| UseMutex.EffectiveTimeout | client/src/components/hooks/useMutex.js:7 | an acquire without a timeout waits 5000 ms, otherwise the given timeout |
| UseMutex.IndexOf | client/src/components/hooks/useMutex.js:15 | the index is the first occurrence of the waiter, or the queue length (`-1`) when it is absent |
| UseMutex.AcquireStep | client/src/components/hooks/useMutex.js:7-32 | the acquire event on the lock state; its cases are `AcquireFreeGrants` and `AcquireLockedQueues`, and it keeps the invariant (`InvPreserved`) |
| UseMutex.ReleaseStep | client/src/components/hooks/useMutex.js:34-42 | the release event; `ReleaseHandsToHead`, `ReleaseFreeIsNoop` and `ReleasesGrantInQueueOrder` state it |
| UseMutex.TimeoutStep | client/src/components/hooks/useMutex.js:14-20 | the timer event; `TimeoutRemovesOnlyThatWaiter` and `TimeoutOfAbsentWaiterIsNoop` state it |
| UseMutex.AcquireFreeGrants | client/src/components/hooks/useMutex.js:9-11 | acquiring a free mutex resolves at once and locks it |
| UseMutex.AcquireLockedQueues | client/src/components/hooks/useMutex.js:12-29 | acquiring a held mutex appends the caller to the queue and arms a timer of the effective timeout |
| UseMutex.ReleaseHandsToHead | client/src/components/hooks/useMutex.js:35-38 | release with waiters hands the lock to the head waiter and keeps the mutex locked |
| UseMutex.ReleaseFreeIsNoop | client/src/components/hooks/useMutex.js:39-41 | releasing a free mutex leaves it free |
| UseMutex.TimeoutRemovesOnlyThatWaiter | client/src/components/hooks/useMutex.js:14-19 | a firing timer removes exactly the first occurrence of its waiter, rejects it with "Mutex acquire timeout", and leaves the lock and everyone else in order |
| UseMutex.TimeoutOfAbsentWaiterIsNoop | client/src/components/hooks/useMutex.js:15-16 | a timer whose waiter is no longer queued does nothing |
| UseMutex.GrantedWaiterTimeoutIsNoop | client/src/components/hooks/useMutex.js:22-26 | once granted, a waiter can no longer be rejected by its timer |
| UseMutex.InvPreserved | client/src/components/hooks/useMutex.js:7-42 | every event keeps "a free mutex has no waiters" |
| UseMutex.ReleasesGrantInQueueOrder | client/src/components/hooks/useMutex.js:34-42 | successive releases grant the waiters exactly in queue order, and the mutex becomes free only after the last one releases |
| UseMutex.DoubleReleaseOnFreeMutex | client/src/components/hooks/useBufferManager.js:301-322 | an acquire followed by one or two releases leaves an uncontended mutex free, so the extra release is harmless there |
| UseMutex.StrayReleaseAdmitsSecondHolder | client/src/components/hooks/useBufferManager.js:305-312 | while one task holds the mutex and another waits, a release nobody acquired for grants the waiter, so two tasks hold the lock |
| UseMutex.Mutex.constructor | client/src/components/hooks/useMutex.js:4-5 | the hook starts unlocked with an empty queue |
| UseMutex.Mutex.Acquire | client/src/components/hooks/useMutex.js:7-32 | performs the acquire step on the `locked` and `queue` refs and keeps the invariant |
| UseMutex.Mutex.Release | client/src/components/hooks/useMutex.js:34-42 | performs the release step: the head waiter is woken, or the lock is cleared |
| UseMutex.Mutex.OnTimeout | client/src/components/hooks/useMutex.js:14-20 | the timer callback's search and splice reject the waiter iff it was queued, always with "Mutex acquire timeout"; the lock flag is unchanged |
| BufferModel.InitialInv | client/src/components/hooks/useBufferManager.js:48-64 | the initial engine satisfies the invariant with A current and B standby |
| BufferModel.SwitchFlipsFlags | client/src/components/hooks/useBufferManager.js:211-227 | a switch flips both `isActive` flags, so exactly one active buffer stays current |
| BufferModel.Initialize | client/src/components/hooks/useBufferManager.js:88-95 | records the sink and callbacks and sets the health state to INITIALIZED; `InitializeRearmsReady` states that ready fires again afterwards |
| BufferModel.HealthOf | client/src/components/hooks/useBufferManager.js:105-132 | the health snapshot; `HealthFormula` states it |
| BufferModel.UpdateHealth | client/src/components/hooks/useBufferManager.js:98-149 | the health update and its callbacks; `UpdateHealthEvents`, `ReadyOnRisingEdgeLowEveryTime` and `UpdateHealthConserves` state it |
| BufferModel.TargetSlot | client/src/components/hooks/useBufferManager.js:237-256 | the buffer a chunk is aimed at; `TargetRule` states it |
| BufferModel.AddChunk | client/src/components/hooks/useBufferManager.js:231-274 | `addChunk`; `AddChunkEffect`, `AddChunkConserves`, `AddChunkAccepted` and `FullEngineDropsChunk` state it |
| BufferModel.MoveCount | client/src/components/hooks/useBufferManager.js:186-194 | the number of chunks the transfer loop shifts, at most all of staging; `MoveCountBounds` states where it stops |
| BufferModel.Swap | client/src/components/hooks/useBufferManager.js:163-208 | `swapBuffers`; `SwapNoop`, `SwapEffect`, `SwapIsRefill` and `SwapConserves` state it |
| BufferModel.Switch | client/src/components/hooks/useBufferManager.js:211-227 | `switchActiveBuffers`; `SwitchFlipsFlags` and `SwitchConserves` state it |
| BufferModel.PopCurrent | client/src/components/hooks/useBufferManager.js:315-325 | the delivery of the head of current; `PopTakesHead` and `PopConserves` state it |
| BufferModel.RemoveChunk | client/src/components/hooks/useBufferManager.js:284-330 | `removeChunk`; `RemoveChunkEffect`, `RemoveChunkPops` and `RemoveChunkConserves` state it |
| BufferModel.ControlPlayback | client/src/components/hooks/useBufferManager.js:334-349 | `controlPlayback` sets the playing flag and starts or stops the tick; `UseBufferManager.BufferManager.ControlPlayback` performs it |
| BufferModel.Tick | client/src/components/hooks/useBufferManager.js:345-347 | one interval firing runs `removeChunk` while ticking; `RunConserves` covers runs of ticks |
| BufferModel.SwapKeepsFlags | client/src/components/hooks/useBufferManager.js:163-208 | a refill changes no flag, no playback state and nothing already delivered |
| BufferModel.TargetRule | client/src/components/hooks/useBufferManager.js:237-261 | placement: current below 10 MiB, else standby below 15 MiB, else staging; capacity 15 MiB for active buffers |
| BufferModel.AddChunkEffect | client/src/components/hooks/useBufferManager.js:258-273 | an accepted chunk is appended at the tail of its target and counted, and the other buffers are untouched; a chunk that does not fit changes nothing |
| BufferModel.AddChunkConserves | client/src/components/hooks/useBufferManager.js:263-267 | `addChunk` keeps the invariant and adds exactly the chunk's size to buffered-plus-delivered bytes, or nothing when it drops the chunk |
| BufferModel.AddChunkAccepted | client/src/components/hooks/useBufferManager.js:263-272 | the append keeps the invariant and stores the chunk's bytes, and `addChunk` is the health update of that engine |
| BufferModel.AddChunkIsAppend | client/src/components/hooks/useBufferManager.js:263-273 | an accepted chunk is the append to its target followed by a health update |
| BufferModel.FullEngineDropsChunk | client/src/components/hooks/useBufferManager.js:258-263 | with both active buffers and staging full, a non-empty chunk is dropped and available space is 0 |
| BufferModel.MoveCountBounds | client/src/components/hooks/useBufferManager.js:186-194 | the transfer loop stops at the first prefix whose total reaches the budget, or when staging is empty, and every shorter prefix is below the budget |
| BufferModel.SwapEffect | client/src/components/hooks/useBufferManager.js:163-208 | a running swap moves a non-empty head of staging, in order, to the tail of standby; standby plus staging is conserved; the move reaches min(room, staging size) and exceeds the room by less than its last chunk; current is untouched |
| BufferModel.SwapIsRefill | client/src/components/hooks/useBufferManager.js:179-207 | a swap that does work is the health update of the refill by the loop's count |
| BufferModel.RefillConserves | client/src/components/hooks/useBufferManager.js:196-198 | a refill keeps the invariant and creates or loses no bytes |
| BufferModel.SwapKeepsCurrent | client/src/components/hooks/useBufferManager.js:170-198 | a refill never touches the current buffer |
| BufferModel.SwapNoop | client/src/components/hooks/useBufferManager.js:168-185 | a swap already running, an empty staging buffer or no room to transfer returns with the engine unchanged and no health update |
| BufferModel.SwapConserves | client/src/components/hooks/useBufferManager.js:163-208 | every swap, including its early returns, keeps the invariant and the stored total |
| BufferModel.SwitchConserves | client/src/components/hooks/useBufferManager.js:211-227 | a switch keeps the invariant and the stored total, and the old standby becomes current |
| BufferModel.PopConserves | client/src/components/hooks/useBufferManager.js:315-320 | handing the head of current to the sink keeps the invariant and the stored total |
| BufferModel.PopTakesHead | client/src/components/hooks/useBufferManager.js:315-320 | popping a non-empty current buffer delivers its head and subtracts its size, keeping the invariant |
| BufferModel.RemoveChunkPops | client/src/components/hooks/useBufferManager.js:300-320 | a playing tick with a free sink pops current, or switches first when current is empty and standby is not |
| BufferModel.RemoveChunkConserves | client/src/components/hooks/useBufferManager.js:284-330 | `removeChunk` never creates or loses bytes: what leaves the buffers is what reaches the sink |
| BufferModel.RemoveChunkEffect | client/src/components/hooks/useBufferManager.js:284-330 | the cases of `removeChunk`: no-op when not playing, without a sink, while the sink updates, or when both active buffers are empty; otherwise the head of current (after a switch if current is empty) is delivered |
| BufferModel.HealthFormula | client/src/components/hooks/useBufferManager.js:105-132 | READY iff current holds at least 10 MiB, otherwise BUFFERING; available space is the room in standby plus the room in staging |
| BufferModel.UpdateHealthEvents | client/src/components/hooks/useBufferManager.js:134-148 | ready fires iff the state turns READY from another state, low fires iff the total is at most 45 MiB (each only with its callback set), and earlier events are kept |
| BufferModel.ReadyOnRisingEdgeLowEveryTime | client/src/components/hooks/useBufferManager.js:135-146 | a second update on the same buffers fires ready no more, but fires low again |
| BufferModel.InitializeRearmsReady | client/src/components/hooks/useBufferManager.js:88-95 | re-initializing resets the state, so the next update fires ready again |
| BufferModel.UpdateHealthConserves | client/src/components/hooks/useBufferManager.js:98-149 | a health update changes no buffer |
| BufferModel.RunConserves | client/src/components/hooks/useBufferManager.js:229-349 | over any run of adds, ticks, refills and playback changes, buffered plus delivered bytes grow by exactly the bytes the adds accepted |
| UseBufferManager.Buffer.constructor | client/src/components/hooks/useBufferManager.js:49-62 | a buffer starts empty with size 0 and its given flag |
| UseBufferManager.Buffer.ShiftWhileBelow | client/src/components/hooks/useBufferManager.js:187-194 | the loop shifts off exactly the head prefix counted by the transfer rule and returns its size |
| UseBufferManager.BufferManager.constructor | client/src/components/hooks/useBufferManager.js:48-85 | three distinct fresh buffers in the initial engine state |
| UseBufferManager.BufferManager.Initialize | client/src/components/hooks/useBufferManager.js:88-95 | performs the initialize step; the state becomes INITIALIZED |
| UseBufferManager.BufferManager.UpdateBufferHealth | client/src/components/hooks/useBufferManager.js:98-149 | performs the health-update step in place |
| UseBufferManager.BufferManager.SwapBuffers | client/src/components/hooks/useBufferManager.js:163-208 | performs the swap step in place and keeps the invariant |
| UseBufferManager.BufferManager.SwitchActiveBuffers | client/src/components/hooks/useBufferManager.js:211-227 | performs the switch step in place |
| UseBufferManager.BufferManager.AppendAt | client/src/components/hooks/useBufferManager.js:266-267 | pushes the chunk on the chosen buffer and adds its size, nothing else |
| UseBufferManager.BufferManager.AddChunk | client/src/components/hooks/useBufferManager.js:231-274 | performs the `addChunk` step in place and keeps the invariant |
| UseBufferManager.BufferManager.ShiftAt | client/src/components/hooks/useBufferManager.js:319-320 | shifts the head off the chosen buffer and subtracts its size |
| UseBufferManager.BufferManager.DeliverHead | client/src/components/hooks/useBufferManager.js:315-325 | performs the pop step: the head of current goes to the sink |
| UseBufferManager.BufferManager.RemoveChunk | client/src/components/hooks/useBufferManager.js:284-330 | performs the `removeChunk` step in place and keeps the invariant |
| UseBufferManager.BufferManager.ControlPlayback | client/src/components/hooks/useBufferManager.js:334-349 | sets the playing flag and runs the tick exactly when playing |
| UseBufferManager.BufferManager.Tick | client/src/components/hooks/useBufferManager.js:345-347 | one interval firing is one `removeChunk` while the tick runs |
| Bytes.ReadUint32BE | client/src/services/movieServices.js:135-138 | a 32-bit read is below 2^32 |
| Bytes.Uint32RoundTrip | client/src/services/movieServices.js:120-121 | reading back a written 32-bit field gives the value modulo 2^32 |
| Bytes.Uint32ZeroIff | client/src/services/movieServices.js:138 | a field reads as 0 iff its four bytes are zero |
| MovieServices.HeaderWritesLayout | client/src/services/movieServices.js:116-123 | the four writes, in order, give sequence, size, the first half of the timestamp, then the flags word over the second half |
| MovieServices.MessageLayout | client/src/services/movieServices.js:114-131 | a message is 16 + payload bytes with each field at its offset and the payload after the header |
| MovieServices.Header | client/src/services/movieServices.js:116-124 | the 16-byte header as the writes leave it; `HeaderWritesLayout` ties it to the writes in source order |
| MovieServices.EncodeMessage | client/src/services/movieServices.js:114-131 | the created message; `MessageLayout` gives its layout and `RoundTrip` its inverse |
| MovieServices.SetBytes | client/src/services/movieServices.js:127-128 | copying bytes into a view writes them at the offset and changes nothing else |
| MovieServices.SetUint32 | client/src/services/movieServices.js:120 | a `setUint32` writes the big-endian value modulo 2^32 |
| MovieServices.CreateChunkMessage | client/src/services/movieServices.js:114-131 | the returned buffer is the encoded message |
| MovieServices.ParseChunkMessage | client/src/services/movieServices.js:133-150 | fails iff the buffer is shorter than 16 bytes; otherwise the words are below 2^32, the timestamp is 8 bytes and the payload is the rest |
| MovieServices.RoundTrip | client/src/services/movieServices.js:114-150 | parsing a created message returns sequence and length modulo 2^32, the flag and the payload; the timestamp comes back with its low half overwritten |
| MovieServices.ParseByFields | client/src/services/movieServices.js:134-141 | each parsed field depends only on its own slice |
| MovieServices.RoundTripInRange | client/src/services/movieServices.js:114-150 | for values below 2^32 the round trip is exact for sequence, size, flag and payload |
| MovieServices.TimestampClobbered | client/src/services/movieServices.js:122-123 | the parsed timestamp differs from the written one whenever its low half differs from the flags word |
| MovieServices.NonzeroFlagsMeanLast | client/src/services/movieServices.js:138 | the last-chunk flag is set iff the flags word is non-zero |
| MovieServices.PayloadLengthUnchecked | client/src/services/movieServices.js:133-150 | any header followed by any payload parses; the payload is everything after the header and the size is whatever the header says |
| MovieServices.DeclaredSizeMayDisagree | client/src/services/movieServices.js:136-141 | a header declaring 5 bytes with no payload parses without error |
| MoviePlayer.MaxChunks | client/src/components/room/movieplayer.jsx:181 | the budget is the floor of available space over 64 KiB |
| MoviePlayer.SliceAt | client/src/components/room/movieplayer.jsx:198-201 | a slice is at most 64 KiB, and inside the file it is the non-empty bytes from its start to the end of the chunk or of the file |
| MoviePlayer.ChunksFrom | client/src/components/room/movieplayer.jsx:188-196 | how many chunks one call reads; `SendCountBounds` states its bounds and stopping rule |
| MoviePlayer.Slices | client/src/components/room/movieplayer.jsx:186-201 | the slices one call reads, one per chunk; `SlicesAreContiguous` and `ResumeContinuesSlicing` state them |
| MoviePlayer.Frames | client/src/components/room/movieplayer.jsx:237-243 | the frames one call sends, one per slice; `FramesShape` and `FramesParse` state them |
| MoviePlayer.Feed | client/src/components/room/movieplayer.jsx:231-235 | the local buffer after adding the slices in order with consecutive sequence numbers; `HandleChunkSend` performs it |
| MoviePlayer.SendCountBounds | client/src/components/room/movieplayer.jsx:181-196 | a call sends nothing with no budget, at most the budget otherwise, stops on the budget or at the end of the file, and every chunk starts inside the file |
| MoviePlayer.SlicesAreContiguous | client/src/components/room/movieplayer.jsx:186-201 | the chunks of one call are exactly the file bytes from the start offset to the resume offset |
| MoviePlayer.ResumeContinuesSlicing | client/src/components/room/movieplayer.jsx:186-194 | a call resuming at the recorded offset continues the same slicing as one longer call |
| MoviePlayer.FramesShape | client/src/components/room/movieplayer.jsx:237-243 | the k-th frame sent is the k-th slice encoded under sequence seq0 + k with the flag clear |
| MoviePlayer.FramesParse | client/src/components/room/movieplayer.jsx:237-241 | the peer parses the k-th frame as sequence seq0 + k, the slice's length and the slice, and never as the last chunk |
| MoviePlayer.Player.constructor | client/src/components/room/movieplayer.jsx:64-76 | a fresh player with offset and sequence 0, nothing sent, not streaming |
| MoviePlayer.Player.HandleChunkSend | client/src/components/room/movieplayer.jsx:175-286 | without leader role, file or channel nothing changes; otherwise the call sends the contiguous slices of `SendCountBounds`, adds them in order to the local buffer, frames them on an open channel, advances the sequence by their count and records the resume offset |
| MoviePlayer.Player.ReadNextChunk | client/src/components/room/movieplayer.jsx:188-245 | from any point of a call, re-entering the loop finishes it with the call's full count, slices, frames and adds, and records the resume offset |
| MoviePlayer.Player.SendChunk | client/src/components/room/movieplayer.jsx:229-245 | one `onload`: the slice is added locally, then framed and sent, as one more step of the call |
| MoviePlayer.Player.AddLocal | client/src/components/room/movieplayer.jsx:231-235 | the local add is the next `addChunk` of the call's slices |
| MoviePlayer.Player.SendFrame | client/src/components/room/movieplayer.jsx:237-243 | the frame goes on the wire only when the channel is open, and the sequence number advances either way |
| MoviePlayer.Player.HandleChunkReceived | client/src/components/room/movieplayer.jsx:289-307 | a leader ignores frames; a viewer reports a frame shorter than the header, otherwise the buffer is exactly the engine after adding the parsed chunk under its declared size |
| MoviePlayer.Player.OnBufferEvent | client/src/components/room/movieplayer.jsx:139-145 | a ready event has the effect of `handleReadyForPlayback` (a viewer not yet streaming sends MOVIE_ISPLAYING and arms the start), and a low event has the effect of `handleBufferLow` (a viewer's request is refused); role and wire are kept |
| MoviePlayer.Player.SendControl | client/src/components/room/movieplayer.jsx:38-43 | a control send records exactly the outcome of `sendControl` |
| MoviePlayer.Player.HandlePlay | client/src/components/room/movieplayer.jsx:78-114 | a start timer is armed, with delay timestamp - now, iff the start is strictly in the future |
| MoviePlayer.Player.HandleReadyForPlayback | client/src/components/room/movieplayer.jsx:129-137 | a viewer that is not streaming sends MOVIE_ISPLAYING for now + 1000 and arms a 1000 ms start timer; otherwise nothing happens |
| MoviePlayer.Player.HandleBufferLow | client/src/components/room/movieplayer.jsx:117-127 | a viewer's buffer-low request is refused as an invalid type; a leader sends nothing |
| MoviePlayer.Player.OnStartTimer | client/src/components/room/movieplayer.jsx:84-110 | with a video element consumption starts; success marks streaming, failure stops consumption, reports false and sets the error |
| PeerContext.ControlMessageType | client/src/configs/peerConfig.js:9-14 | exactly MOVIE_READY and MOVIE_BUFFER_LOW are undefined |
| PeerContext.ControlKeysAreTheFourValues | client/src/contexts/peerContext.jsx:34-53 | the control registry is keyed by the four defined values, so the undefined names map to an absent key |
| PeerContext.InitialHandlers | client/src/contexts/peerContext.jsx:34-53 | the registry of empty handler sets per channel and type; `ControlKeysAreTheFourValues` states its control keys |
| PeerContext.SetAdd | client/src/contexts/peerContext.jsx:71 | `Set.add` on an insertion-ordered set; `SetAddSpec` states it |
| PeerContext.SetDelete | client/src/contexts/peerContext.jsx:75 | `Set.delete`; `SetDeleteSpec` and `AddThenDeleteRestores` state it |
| PeerContext.SetAddSpec | client/src/contexts/peerContext.jsx:71 | adding keeps the set duplicate-free, adds exactly the handler at the end when new, and is idempotent |
| PeerContext.SetDeleteSpec | client/src/contexts/peerContext.jsx:75 | deleting removes exactly the handler, keeps the rest in order and keeps the set duplicate-free |
| PeerContext.AddThenDeleteRestores | client/src/contexts/peerContext.jsx:71-76 | registering a new handler and calling its unregister function restores the set |
| PeerContext.Route | client/src/contexts/peerContext.jsx:93-105 | binary and non-JSON data are dropped; a routed message has a non-empty type known on its channel and selects that set |
| PeerContext.SendControl | client/src/contexts/peerContext.jsx:295-312 | an unknown type is refused, a closed channel sends nothing, otherwise the message carries type, payload and time |
| PeerContext.MissingControlTypesNeverSent | client/src/contexts/peerContext.jsx:297-300 | MOVIE_READY and MOVIE_BUFFER_LOW are refused whatever the channel state |
| PeerContext.BinaryFramesDropped | client/src/contexts/peerContext.jsx:93-95 | a binary frame never reaches a handler |
| PeerContext.SentControlReachesItsHandlers | client/src/contexts/peerContext.jsx:101-116 | a control message that was sent selects, at the peer, exactly the set registered for its type |
| PeerContext.ControlRegistrationRule | client/src/contexts/peerContext.jsx:56-68 | registration on the control channel succeeds iff the name is one of the four defined ones |
| PeerContext.MessageHandlers.constructor | client/src/contexts/peerContext.jsx:34-53 | the registry starts with an empty set per known type |
| PeerContext.MessageHandlers.RegisterHandler | client/src/contexts/peerContext.jsx:56-79 | an unknown channel or type changes nothing; otherwise the handler is added to its set, and the shape and duplicate-freedom are kept |
| PeerContext.MessageHandlers.Unregister | client/src/contexts/peerContext.jsx:73-76 | the unregister function deletes that handler from that set only |
| PeerContext.MessageHandlers.Dispatch | client/src/contexts/peerContext.jsx:93-120 | a routed message calls every handler of its set in order with the payload, and a throwing handler is logged without stopping the others |
| UseMovieStream.ContainsIff | client/src/services/webrtc/useMovieStream.js:56 | `includes` holds iff the pattern occurs at some index |
| UseMovieStream.Hex | client/src/services/webrtc/useMovieStream.js:47-51 | two lower-case, zero-padded hex digits per byte; `HexAt` and `HexRoundTrip` state it |
| UseMovieStream.HexAt | client/src/services/webrtc/useMovieStream.js:49-51 | byte i is written as its two lower-case digits at positions 2i and 2i + 1 |
| UseMovieStream.HexRoundTrip | client/src/services/webrtc/useMovieStream.js:47-51 | the hex header decodes back to the bytes it encodes |
| UseMovieStream.Head | client/src/services/webrtc/useMovieStream.js:81 | the reader sees the first 12 bytes, or the whole file when it is shorter |
| UseMovieStream.HeaderHex | client/src/services/webrtc/useMovieStream.js:47-51 | the loop builds the hex of the first bytes, at most 24 digits, which decode back to those bytes |
| UseMovieStream.Classify | client/src/services/webrtc/useMovieStream.js:54-75 | every detected format is a `video/` type |
| UseMovieStream.DetectVideoFormat | client/src/services/webrtc/useMovieStream.js:43-83 | detection is the classification of the file's hex header |
| UseMovieStream.QuickTimeBrandUnreachable | client/src/services/webrtc/useMovieStream.js:56-61 | a header with the QuickTime brand already contains the `ftyp` pattern |
| UseMovieStream.FtypBoxIsMp4 | client/src/services/webrtc/useMovieStream.js:47-56 | a file with `ftyp` at bytes 4..8 is detected as MP4 whatever its declared type |
| UseMovieStream.UnalignedMatchIsMp4 | client/src/services/webrtc/useMovieStream.js:47-56 | bytes 06 67 47 97 0a are detected as MP4 though they hold no `ftyp` |
| UseMovieStream.EbmlNeverMatroska | client/src/services/webrtc/useMovieStream.js:64-67 | a header that starts with the EBML magic is never classified as Matroska |
| UseMovieStream.NothingDetectedIff | client/src/services/webrtc/useMovieStream.js:54-75 | nothing is detected iff no magic pattern occurs and the declared type is not a video type |
| UseMovieStream.FindSupported | client/src/services/webrtc/useMovieStream.js:112-114 | a found entry is on the list and matches the format |
| UseMovieStream.FindSupportedFirst | client/src/services/webrtc/useMovieStream.js:112-114 | `find` fails iff no entry matches, and otherwise returns the first match |
| UseMovieStream.ValidateVideoFile | client/src/services/webrtc/useMovieStream.js:87-132 | no file, too large, unrecognized, unsupported and browser-refused are reported in that order; otherwise the result is the matched entry |
| UseMovieStream.Validation | client/src/services/webrtc/useMovieStream.js:87-132 | the checks of `validateVideoFile` in source order; `AcceptedMeans` and `UnrecognizedIffUndetected` state it |
| UseMovieStream.AcceptedMeans | client/src/services/webrtc/useMovieStream.js:87-132 | an accepted file is at most 3 GiB and has a format, and the result is the first matching allow-list entry the browser can play |
| UseMovieStream.UnrecognizedIffUndetected | client/src/services/webrtc/useMovieStream.js:104-109 | "Unrecognized video format" is reported iff detection found nothing, and the other errors name the detected format |
| UseMovieStream.MagicFormatAllowed | client/src/services/webrtc/useMovieStream.js:15-26 | every format found by magic numbers is on the allow-list under its own name |
| UseMovieStream.PrefixMatchAdmits | client/src/services/webrtc/useMovieStream.js:112-114 | a declared `video/3gpp2` is served as the `video/3gpp` entry |
| RoomUtils.GenerateRoomId | server/src/utils/roomUtils.js:3-7 | an id is six lower-case letters |
| RoomUtils.GenerateRoomIdBijective | server/src/utils/roomUtils.js:3-7 | draws and six-letter lower-case ids correspond one to one |
| RoomUtils.Candidate | server/src/utils/roomUtils.js:11-12 | the id of each attempt, from the next six draws, is a valid room id |
| RoomUtils.GetUniqueRoomId | server/src/utils/roomUtils.js:9-23 | returns the first untaken candidate among the first maxAttempts, and fails with "Failed to generate unique room ID" iff all of them are taken |
| RoomUtils.JoinOutcome | server/src/utils/roomUtils.js:55-66 | join fails with "Room is full" iff the room has more than one participant; otherwise the user is a member, earlier participants are kept in order, at most two in all, and the room is unchanged iff the user was a member |
| RoomUtils.MemberOfFullRoomRefused | server/src/utils/roomUtils.js:55-64 | a member of a full room is refused |
| RoomUtils.SecondJoinerCannotRejoin | server/src/utils/roomUtils.js:55-66 | the second participant's repeated join is refused |
| RoomUtils.JoinParticipants | server/src/utils/roomUtils.js:55-66 | the join rule after the room is found; `JoinOutcome` states it |
| RoomUtils.CheckUserInRoom | server/src/utils/roomUtils.js:104-114 | "Room not found" for a missing room, otherwise whether the user is a participant; `CheckAfterJoinAndLeave` states it after a join and after a leave |
| RoomUtils.Without | server/src/utils/roomUtils.js:86 | the filtered list is no longer than the original |
| RoomUtils.WithoutCounts | server/src/utils/roomUtils.js:86 | the filter drops every occurrence of the user and keeps every other entry with its multiplicity |
| RoomUtils.WithoutAppend | server/src/utils/roomUtils.js:86 | the filter keeps order, because it distributes over concatenation |
| RoomUtils.WithoutIdempotent | server/src/utils/roomUtils.js:86 | filtering twice is filtering once, and a non-member's leave keeps the list |
| RoomUtils.CheckAfterJoinAndLeave | server/src/utils/roomUtils.js:104-114 | after a successful join the user checks in; after a leave the room is gone or the user checks out |
| RoomUtils.RoomStore.constructor | server/src/models/roomModel.js:3-27 | the collection starts empty |
| RoomUtils.RoomStore.CreateRoom | server/src/utils/roomUtils.js:26-45 | fails with "Failed to create room", changing nothing, iff every one of the five candidate ids is taken; otherwise the new room is stored under the first untaken candidate, with the user as host and sole participant |
| RoomUtils.RoomStore.JoinRoom | server/src/utils/roomUtils.js:47-77 | "Room not found" for a missing room, otherwise the join rule saved; rooms keep one or two participants |
| RoomUtils.RoomStore.LeaveRoom | server/src/utils/roomUtils.js:78-102 | "Room not found" for a missing room; otherwise every occurrence of the user is removed, the room is deleted iff nobody remains, and the remaining count is returned |

## Left out

- Timers and the clock: `setTimeout`, `setInterval`, `clearTimeout` and `Date.now()` are not modelled. A mutex timer expiring and a play timer firing are explicit events, and the time is an input.
- Float64 encoding of the timestamp: the eight bytes are opaque input, because floating point is out of scope.
- The `fullness` percentages of the health snapshot: they are floating-point values that nothing in the core reads.
- The health log interval and all console logging.
- Asynchronous interleaving: every buffer operation is one atomic step, and the engine does not hold the three mutexes. The room operations `createRoom`, `joinRoom` and `leaveRoom` are atomic steps too, though the source awaits `findOne` before its checks and `save` or `deleteOne` after them (roomUtils.js:26-102). Two concurrent joins of a one-person room can both pass the fullness check, so the bound of two participants (`JoinOutcome`, the `RoomStore` invariant) holds only for joins that do not overlap. A mutex acquire timing out inside a buffer operation (its rejection) is not modelled in the engine. The mutex itself is modelled on its own.
- BufferModel.RemoveChunk: the health updates of a switch come in a different order than in the source. `switchActiveBuffers` starts `swapBuffers` without awaiting it (useBufferManager.js:223), and the refill suspends at its first `await`. So in the source the switch's update runs first, on the total before the pop. The pop's update comes next, and the refill's update comes last. The model runs the refill's update first, then the switch's and the pop's. The buffer contents are the same either way. `onReadyForPlayback` fires the same, and every `availableSpace` payload is equal, because the refill keeps standby plus staging constant. The model can fire one `onBufferLow` fewer than the source. This happens when current is empty, staging is not, and the total is above 45 MiB before the pop but not after it. A viewer then records one refused `MOVIE_BUFFER_LOW` send fewer.
- The `bufferedAmount` pause and the "send queue is full" retry of the leader's `onload` (movieplayer.jsx:209-228, 246-266): sends are taken to succeed at once, because the channel's queue is outside the model. The retry path re-reads the same slice after it was added locally and after the sequence number advanced.
- React state and stale closures: `isLeader` and the callbacks are read as the current field values.
- Prototype keys in `messageHandlers` lookups (a label such as `toString`): the registry is a plain map.
- `getSupportedMimeType`, `initializeMediaSource`, `handleBufferUpdate` and `cleanupMediaSource`: they drive the browser's MediaSource API.
- The rest of `useMovieStream` (MediaSource setup, its own chunk queue) and the FileReader error path of `detectVideoFormat`: browser I/O.
- `sendChat`, `sendMovieData`'s channel object, channel set-up and WebRTC signalling in `PeerProvider`: network I/O. An open movie channel is a flag of the player.
- The JSON round trip of control messages is the identity on type and payload (`PeerContext.Received`).
- The player's registration effect and its file-upload and viewer-setup handlers (movieplayer.jsx:310-420): only two of their steps are refused. The leader's `MOVIE_READY` and `MOVIE_BUFFER_LOW` registrations (movieplayer.jsx:323-336) are refused, stated by `ControlRegistrationRule`. The viewer's `MOVIE_READY` send (movieplayer.jsx:410-413) is refused, stated by `MissingControlTypesNeverSent`. The other steps succeed and are not modelled, because they only wire up handlers and start the MediaSource setup. These are the `MOVIE_ISPLAYING` registration (movieplayer.jsx:317-320), the viewer's movie-channel `CHUNK` registration (movieplayer.jsx:345-348), the `MOVIE_ISLOADED` send in `handleFileUpload` (movieplayer.jsx:376-381) and the viewer's `MOVIE_ISLOADED` registration (movieplayer.jsx:396-397). `MOVIE_ISLOADED` is the defined value `MOVIE_LOADED`, so both of its steps succeed.
- Database failures in `roomUtils` (a rejected `findOne`, `save` or `deleteOne`) and the 12-hour room expiry of the room schema: persistence and clock.
- MoviePlayer.Player.HandleChunkReceived: states the buffer after the add exactly, but not the control messages that the callbacks for its new events send, because each callback's effect is stated by `OnBufferEvent`.
