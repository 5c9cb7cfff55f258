# Verified models of the Wavis room registry and voice path

Wavis is a voice-room system: a backend keeps track of who is in which room, and
clients move audio between the sound device and the network. This project models
the parts that keep state or do arithmetic over unbounded runs, and proves laws of
them in Dafny 4.11.

- **Room registry** (`RegistrySteps`, `RegistryRuns`, `RegistryUnlinks`,
  `RegistryAtomic`, `RegistryOverlaps`, `RegistryRest`, `RegistrySeats`,
  `RegistryRaces`, `Registry`, `RoomTables`). The registry is modelled twice. As a step
  system, any number of threads run the registry's methods and every lock
  acquisition, lock release and body in between is one step; room objects live in a
  heap, since a thread that cloned a pointer keeps the room after it left the map. As
  atomic calls on the two indexes, in an object that mirrors the source's methods.
  `RegistryAtomic` joins the two: a method that nothing interrupts does to the memory
  what its atomic call does to the indexes. `RegistryUnlinks` says what the map loses
  when a name is unlinked. `RegistryOverlaps`, `RegistryRest` and `RegistrySeats` say what
  of the agreement of the indexes survives interleaving, and `RegistryRaces` gives runs in
  which a documented promise fails. `RoomTables` holds the revocation and viewer-identity
  tables of a room.
- **Audio buffer and its consumers** (`AudioQueue`, `AudioBuffer`, `SendLoop`,
  `CapturePump`). The ring buffer over a fixed array is proved to be a bounded queue;
  the queue's laws (fill, overruns, conservation) are proved over every run of calls.
  The send tick and the microphone pump run on that buffer with other threads writing
  between any two of their calls; the resampler feed is a loop over the same samples.
- **JSON depth guard** (`JsonDepth`). The one-pass scanner measures the depth of every
  JSON value, however it is escaped and spaced (RFC 8259, sections 2 to 7).
- **RTP accounting** (`RtpAccounting`). 16-bit sequence numbers (RFC 3550, section 5.1)
  against the true, unbounded packet numbers.
- **Signal arithmetic** (`Resample`, `Biquad`, `BiquadDecay`, `BiquadBounds`, `Gate`,
  `Mixer`). Samples, gains and coefficients are exact reals; positions and counts are
  natural numbers.

`Basics` holds what several of these share.

Where the source changes things in place, the model is a class or a method with loops,
and its contract equates the new state with a specification function of the old one.
The laws are lemmas about those functions.

## Promises that fail, and when they hold

- `remove_empty_room` is to take a room away only while nobody is in it
  (wavis-backend/src/state.rs:339). Lookup, test and unlink are separate lock sections and
  the unlink is by name. A join in between is lost from the map
  (`RegistryRaces.RemovedWhileOccupied`), and the object lost need not even be the one
  tested (`RegistryRaces.RemovedAfterRecreation`). `RegistryUnlinks.UnlinkLosesIff` says,
  for this method and for the clean-up after leaving and moving, who is in the object the
  map loses: exactly the peers that some thread put in since the lookup and none took out
  again.
- `add_peer` is to go through the capacity-checked join for a room that exists
  (wavis-backend/src/state.rs:479). The capacity is not checked
  (`RegistryRaces.AddPeerOverfills`). Rooms stay within their maxima exactly when no `add_peer` of an unlisted peer meets a full room: call by call
  (`Registry.AddedWithinIff`), over runs of calls (`Registry.RunWithinIff`) and under any
  interleaving (`RegistryRuns.CapacityKeptIff`).
- The two indexes are to say the same.
  - Over runs of calls they do exactly when no capacity-checked join is let into a room
    with a place while the peer is indexed in another (`Registry.RunAgreesIff`, with the
    run `Registry.JoinStrays`).
  - Under interleaving, removals included, for a peer whose own calls do not overlap: they
    agree on it between its calls, throughout the run, exactly when no step unlinks a room
    that lists it at rest, indexes it in a room that does not list it or while another
    does, or gives its call up while the room it is indexed in does not list it
    (`RegistryRest.AgreesBetweenIff`). The room lists the peer when it is indexed exactly
    when the name was not unlinked since the lookup (`RegistrySeats.EntersListedIff`).
    Runs that fail: `RegistryRaces.RemovedWhileOccupied`, and
    `RegistryRaces.JoinedAfterRemoval`, where the room was rightly found empty.
  - Calls on one peer that overlap each other can undo the agreement too
    (`RegistryRaces.LeftWhileRejoining`, `RegistryRaces.AddedToBoth`). Without removing
    bodies the condition is exact for them as well: the indexes agree once all calls have
    returned exactly when no step pushed a peer while another room listed it
    (`RegistryOverlaps.OverlappedAgreesIff`).
- A query is to tell whether a participant was revoked within its window
  (`is_participant_revoked`, wavis-backend/src/state.rs:207): pruning forgets what a later
  query may still ask for (`RoomTables.GrowingWindowForgets`). The answers are those of
  the full log exactly when no query reaches further back than one before it
  (`RoomTables.PruningInvisibleIff`).
- Any write past the threshold is to leave the buffer at its target fill
  (clients/shared/src/audio_buffer.rs:500-502). That is true of
  `enforce_backlog_drop` by itself, but `write` makes room first, and an ordinary batch
  leaves the fill at the threshold (`AudioQueue.BacklogStaysAboveTarget`).
  `AudioQueue.BacklogReachesTargetIff` says when the target is reached.
- Whatever is written within the capacity is to be read back unchanged
  (clients/shared/src/audio_buffer.rs:327-329). A batch over the threshold is cut to the
  target (`AudioQueue.RoundTripCut`). It comes back whole exactly when the buffer can be so
  full, that is up to the threshold or one frame (`AudioQueue.ReadsBackIff`).
- The microphone pump asks for the fill and then reads so much: whether the device can
  take samples away in between depends on the buffer's limits
  (`CapturePump.PullNeverUnderrunsIff`). The same for whole frames in the send tick
  (`SendLoop.TickNeverUnderrunsIff`).
- Expected minus received is to be the number of missing packets: duplicates
  (`RtpAccounting.DuplicateHidesLoss`) and a wrap of the 16 bits within the first poll
  (`RtpAccounting.FirstPollWraps`, `RtpAccounting.WrapHidesLoss`) break it.
  `RtpAccounting.RunLossIff` gives the exact condition over every run of polls, and
  `RtpAccounting.RunRatioIff` that for the ratio that is reported.

Two descriptions are worth a remark without failing: the depth guard has no special case for
`\uXXXX` escapes, which is harmless for every JSON value
(`JsonDepth.ScanMeasuresDepth`); and a viewer identity without a window marker that is
held already is refused at the cap, as documented (`RoomTables.HeldYetRefused`).

## Model

| member | source | states |
|---|---|---|
| `RegistrySteps.Without` | wavis-backend/src/state.rs:538-538 | Taking a peer out of a peer list leaves exactly the other peers, and a list without repeats stays one. |
| `RegistrySteps.WithoutJoins` | wavis-backend/src/state.rs:538-538 | Taking a peer out of a list is taking it out of each part; with the single entry below this fixes order and number of the others. |
| `RegistrySteps.WithoutOne` | wavis-backend/src/state.rs:538-538 | A list of one peer is kept if it is another and emptied if it is that one. |
| `RegistryRuns.ExecDisciplined` | wavis-backend/src/state.rs:295-309 | Whatever any body of any method decides to do next, from the guards that body runs under the thread takes locks in strictly increasing rank, runs each further body under exactly the guards it needs and ends holding none. |
| `RegistryRuns.ExecRefs` | wavis-backend/src/state.rs:326-605 | A body leaves every room reference of the map and of its continuation inside the heap, and the heap never shrinks. |
| `RegistryRuns.ExecFrame` | wavis-backend/src/state.rs:326-605 | A body changes no existing room object other than the one it holds the write lock of, and a new object is empty. |
| `RegistryRuns.CreateLinks` | wavis-backend/src/state.rs:326-337 | A created object is linked under its name, empty and with exactly the maximum asked for (two places when `add_peer` makes it); nothing else changes. |
| `RegistryRuns.ExecGuarded` | wavis-backend/src/state.rs:295-309 | A body that changes the map, a room object or the reverse index holds that lock for writing. |
| `RegistryRuns.ExecSound` | wavis-backend/src/state.rs:433-568 | Every body keeps each room object sound: distinct peers, at most the maximum plus unchecked insertions, insertions equal to peers plus removals. |
| `RegistryRuns.StepDisciplined` | wavis-backend/src/state.rs:295-309 | One step of any thread keeps the lock discipline and reference validity of all threads. |
| `RegistryRuns.StepExclusion` | wavis-backend/src/state.rs:295-309 | One step keeps conflicting guards of different threads apart. |
| `RegistryRuns.StepFacts` | wavis-backend/src/state.rs:433-476 | What a join saw at its capacity check still holds at its insertion, whatever the other threads do meanwhile. |
| `RegistryRuns.StepSettled` | wavis-backend/src/state.rs:433-476 | After each step the successful closure calls of a room exceed its checked insertions by one exactly while a thread is between the two. |
| `RegistryRuns.StepInvariant` | wavis-backend/src/state.rs:295-605 | The whole invariant survives every enabled step. |
| `RegistryRuns.RunInvariant` | wavis-backend/src/state.rs:295-605 | The whole invariant holds at the end of every legal run. |
| `RegistryRuns.CapacityHolds` | wavis-backend/src/state.rs:433-568 | In every reachable state, for every room object ever created (linked or not): peers are distinct, never more than the maximum unless `add_peer` inserted unchecked, insertions equal peers plus removals, and closure successes equal checked insertions up to the one thread in between. |
| `RegistryRuns.StepWithinIff` | wavis-backend/src/state.rs:433-528 | With every room object within its maximum, a step keeps it so if and only if it is not an unchecked insertion into a full room. |
| `RegistryRuns.CapacityKeptIff` | wavis-backend/src/state.rs:433-528 | Under any interleaving every room object stays within its maximum throughout if and only if no insertion of `add_peer` meets a full room that does not list the peer. |
| `RegistryUnlinks.ListedIff` | wavis-backend/src/state.rs:433-568 | In every reachable state a room object, linked or not, holds exactly the peers whose last insertion was not followed by their eviction. |
| `RegistryUnlinks.LeftInIffPut` | wavis-backend/src/state.rs:433-568 | Where a peer is never evicted, being left in an object is having been put in. |
| `RegistryUnlinks.LinkedBefore` | wavis-backend/src/state.rs:326-337 | A name is only ever linked to a new object: an old object under a name was under it before. |
| `RegistryUnlinks.TestedIff` | wavis-backend/src/state.rs:342-355 | From before the test to the unlink, whoever is in the tested object then was put there meanwhile and not taken out. |
| `RegistryUnlinks.WindowIff` | wavis-backend/src/state.rs:342-355 | From the lookup to the unlink, the same of whatever object is under the name when it is unlinked. |
| `RegistryUnlinks.VisitBegan` | wavis-backend/src/state.rs:531-568 | A thread that is to test or unlink a room looked that room up in the same call. |
| `RegistryUnlinks.UnlinkLosesIff` | wavis-backend/src/state.rs:342-355 | In every reachable state in which a thread is about to unlink a name (`remove_empty_room`, leaving, moving): the object the map loses holds exactly the peers left in it since that thread's lookup, and is empty if and only if there are none. |
| `RegistryRuns.TopLockFree` | wavis-backend/src/state.rs:295-309 | If every unfinished thread waits for a lock, nobody holds a lock of the highest rank that is waited for. |
| `RegistryRuns.NoDeadlock` | wavis-backend/src/state.rs:295-605 | Every reachable state with an unfinished thread has a thread that can step, even under locks that turn readers away while a writer waits. |
| `RegistryAtomic.AloneFinishes` | wavis-backend/src/state.rs:326-605 | A thread that is inside a method while no other thread holds a lock can finish it, reaching the memory computed for the rest of the method and leaving the other threads as they were. |
| `RegistryAtomic.CreateAlone` | wavis-backend/src/state.rs:326-337 | Uninterrupted, `create_room` adds an empty room with the maximum asked for under a new name, and leaves everything alone under an old one. |
| `RegistryAtomic.RemoveEmptyAlone` | wavis-backend/src/state.rs:342-355 | Uninterrupted, `remove_empty_room` removes the room exactly if it is empty. |
| `RegistryAtomic.JoinAlone` | wavis-backend/src/state.rs:433-476 | Uninterrupted, `try_add_peer_with` is the atomic join, on the unknown-room, already-in, full, refused and accepted paths. |
| `RegistryAtomic.AddAlone` | wavis-backend/src/state.rs:482-528 | Uninterrupted, `add_peer` is the atomic add: room made if needed, peer taken out of its old room, empty old room removed, peer put in. |
| `RegistryAtomic.LeaveAlone` | wavis-backend/src/state.rs:547-568 | Uninterrupted, removing a peer is the atomic removal, with and without removal of an emptied room. |
| `RegistryAtomic.MethodAlone` | wavis-backend/src/state.rs:326-605 | Every public method, run from its first lock to its last release without interruption, does to the indexes what its atomic call does. |
| `RegistryAtomic.UninterruptedIsAtomic` | wavis-backend/src/state.rs:326-605 | From every state where no thread holds a lock there is a legal run in which one thread performs a method; it ends with all threads as before and with the indexes of the atomic call. |
| `RegistryAtomic.ReachableUnshared` | wavis-backend/src/state.rs:326-605 | In every reachable state no two rooms of the map are the same object, so the indexes of a memory are well defined. |
| `RegistryOverlaps.RunSingleIff` | wavis-backend/src/state.rs:433-528 | Without removing bodies, no peer is listed in two rooms at the end if and only if no step pushed a peer while another room listed it. |
| `RegistryOverlaps.OverlappedAgreesIff` | wavis-backend/src/state.rs:433-528 | However calls overlap while no removing body runs: whoever is indexed in a room is listed in it at every moment, and once all calls have returned the indexes agree if and only if no step pushed a peer into a room while another room listed it. |
| `RegistryRest.ExecAway` | wavis-backend/src/state.rs:326-605 | A body of a call on another peer leaves where a peer is listed and indexed alone, except for the name it unlinks. |
| `RegistryRest.OwnProceeds` | wavis-backend/src/state.rs:433-568 | Each body of a peer's own call keeps track of where the peer may be listed, and a call that ends leaves the indexes in agreement on it if and only if it does no harm. |
| `RegistryRest.StepOrderly` | wavis-backend/src/state.rs:326-605 | A harmless step keeps the indexes in agreement on a peer at rest; after a harmful one the peer is at rest and they differ. |
| `RegistryRest.AgreesBetweenIff` | wavis-backend/src/state.rs:326-605 | For a peer whose calls do not overlap each other, under any interleaving with everything else: between its calls the indexes agree on it throughout the run if and only if no step harms it. |
| `RegistryRest.QuiescentAgrees` | wavis-backend/src/state.rs:326-605 | When all calls have returned, of runs without overlap on a peer and without harm, the indexes agree. |
| `RegistrySeats.LinkedIff` | wavis-backend/src/state.rs:326-355 | An object stays under its name if and only if the name is not unlinked. |
| `RegistrySeats.SeatKeptIff` | wavis-backend/src/state.rs:433-528 | In every reachable state in which a thread is about to index a peer: the object it looked up is still under the name if and only if the name was not unlinked since, and lists the peer if and only if nobody took it out since the push, or somebody put it in again. |
| `RegistrySeats.EntersListedIff` | wavis-backend/src/state.rs:433-528 | Where calls on the peer do not overlap, the room of that name lists it then if and only if the name was not unlinked since the lookup. |
| `RegistryRaces.RemovedWhileOccupied` | wavis-backend/src/state.rs:342-355 | A legal run of two threads in which `remove_empty_room` unlinks a room with a member: the member stays in the reverse index of a room that is gone, and the indexes disagree with all calls returned. |
| `RegistryRaces.RemovedAfterRecreation` | wavis-backend/src/state.rs:342-355 | A legal run in which the object that is lost with its member is not the one that was tested: the room was removed, created anew and joined meanwhile. |
| `RegistryRaces.JoinedAfterRemoval` | wavis-backend/src/state.rs:433-476 | A legal run in which `remove_empty_room` unlinks an empty room, and a join that had looked it up goes on to push into it and to index its peer in a room that is gone. |
| `RegistryRaces.AddedToBoth` | wavis-backend/src/state.rs:482-528 | A legal run without removals in which two overlapping `add_peer` calls leave a peer in both rooms. |
| `RegistryRaces.LeftWhileRejoining` | wavis-backend/src/state.rs:433-568 | A legal run in which a peer that leaves while it joins again ends up indexed in a room that does not list it. |
| `RegistryRaces.AddPeerOverfills` | wavis-backend/src/state.rs:482-528 | A legal run in which `add_peer` puts three peers in a room for two. |
| `Registry.CreatedAgrees` | wavis-backend/src/state.rs:326-337 | Creating a room keeps the indexes in agreement. |
| `Registry.EmptyRemovedAgrees` | wavis-backend/src/state.rs:342-355 | Removing a room if it is empty keeps the indexes in agreement. |
| `Registry.RemovedAgrees` | wavis-backend/src/state.rs:547-579 | Removing a peer keeps agreement and takes exactly that peer out of exactly its room. |
| `Registry.JoinedAgreesIff` | wavis-backend/src/state.rs:433-476 | A capacity-checked join keeps agreement if and only if it is not one that the room has a place for and the closure accepts while the peer is indexed in another room. |
| `Registry.AddedMoves` | wavis-backend/src/state.rs:482-528 | After `add_peer` the indexes agree, the peer is in the new room and no other, and everyone else is where they were. |
| `Registry.AddedWithinIff` | wavis-backend/src/state.rs:482-528 | With all rooms within their maxima, `add_peer` keeps them so if and only if the room is new, lists the peer already or has a place. |
| `Registry.CallAgreesIff` | wavis-backend/src/state.rs:326-579 | Each call keeps agreement if and only if it is not a join that lets a peer in from another room. |
| `Registry.RunAgreesIff` | wavis-backend/src/state.rs:326-579 | Over every run of calls the indexes agree throughout if and only if no such join happens. |
| `Registry.JoinStrays` | wavis-backend/src/state.rs:433-476 | A run of four calls after which a peer is listed in two rooms. |
| `Registry.CallWithinIff` | wavis-backend/src/state.rs:326-579 | Each call keeps all rooms within their maxima if and only if it is not an `add_peer` of an unlisted peer to a full room. |
| `Registry.RunWithinIff` | wavis-backend/src/state.rs:326-579 | Over every run of calls all rooms stay within their maxima if and only if no such call happens. |
| `Registry.FillsUp` | wavis-backend/src/state.rs:326-476 | For every n: a room made for n takes n different accepted peers one after another, in order and indexed; the next is refused as full whatever the closure would say; before that the closure decides and its own reason is passed on. |
| `Registry.AddedSeats` | wavis-backend/src/state.rs:482-528 | `add_peer` puts the peer behind those in the room, makes a missing room with two places, takes the peer out of its old room, which goes when nobody is left, and changes no other room. |
| `Registry.EvictedLeaves` | wavis-backend/src/state.rs:531-545 | Eviction takes the peer out, keeps order and maximum, and unlinks exactly when asked to and nobody else is left. |
| `Registry.TotalSplit` | wavis-backend/src/state.rs:599-605 | The participant total does not depend on the order the rooms are counted in. |
| `Registry.TotalIsIndexSize` | wavis-backend/src/state.rs:599-605 | With agreeing indexes the participant total is the size of the reverse index. |
| `Registry.InMemoryRoomState.constructor` | wavis-backend/src/state.rs:310-323 | A new registry has no rooms and no peers. |
| `Registry.InMemoryRoomState.CreateRoom` | wavis-backend/src/state.rs:326-337 | A new room is empty with exactly the maximum asked for, and the call says so; an existing room and the reverse index are left alone. |
| `Registry.InMemoryRoomState.RemoveEmptyRoom` | wavis-backend/src/state.rs:342-355 | The room goes exactly when it exists and is empty, and the call says so; nothing else changes. |
| `Registry.InMemoryRoomState.TryAddPeerWith` | wavis-backend/src/state.rs:433-476 | The closure is asked exactly when the room exists, does not list the peer and has a place; then it decides, and a refusal carries its own reason; a listed peer is joined as it is; all else is refused as full. The peer goes behind the others, is indexed when joined, and nothing else changes; no room that respects its maximum comes to exceed it. |
| `Registry.InMemoryRoomState.AddPeer` | wavis-backend/src/state.rs:482-528 | The room lists the peer behind those who were there, a missing room is made with two places, the old room is left, the reverse index names the room; agreement is kept; rooms within their maxima stay so exactly when the room was new, listed the peer or had a place. |
| `Registry.InMemoryRoomState.RemoveFromRoom` | wavis-backend/src/state.rs:531-545 | Takes the peer out of that room only, keeping order and maximum, and removes the room exactly when asked to and nobody else is left. |
| `Registry.InMemoryRoomState.RemovePeer` | wavis-backend/src/state.rs:547-579 | An unindexed peer changes nothing; an indexed one leaves both indexes, and its room goes exactly when asked to and nobody else is left; agreement is kept and the peer is then in no room. |
| `Registry.InMemoryRoomState.TotalParticipantCount` | wavis-backend/src/state.rs:599-605 | The sum over all rooms; the size of the reverse index when the indexes agree. |
| `RoomTables.RevokeFaithful` | wavis-backend/src/state.rs:200-203 | A revocation keeps the table faithful to the full log. |
| `RoomTables.AskFaithful` | wavis-backend/src/state.rs:208-214 | A query that reaches no further back than what was pruned before answers as the log would, and its pruning keeps the table faithful from its own reach on. |
| `RoomTables.PruningInvisible` | wavis-backend/src/state.rs:200-214 | For every sequence of revocations and queries with a forward clock in which no query reaches further back than one before it, the pruned table gives the answers of the full log. |
| `RoomTables.SomeForgotten` | wavis-backend/src/state.rs:200-214 | When a query reaches further back than an earlier one, some revocation among these queries is answered differently. |
| `RoomTables.PruningInvisibleIff` | wavis-backend/src/state.rs:200-214 | For any schedule of queries: table and log agree on everything that can be revoked and asked at them if and only if no query reaches further back than one before it. |
| `RoomTables.FixedWindowExact` | wavis-backend/src/state.rs:200-214 | With one window throughout, from an empty room, the answers are those of the log. |
| `RoomTables.RevokedForWindow` | wavis-backend/src/state.rs:200-214 | A participant revoked at some time is refused exactly until the window has passed. |
| `RoomTables.GrowingWindowForgets` | wavis-backend/src/state.rs:208-214 | With a growing window the answers can differ: a concrete sequence. |
| `RoomTables.SameWindowIff` | wavis-backend/src/state.rs:238-251 | An identity ends with another's window suffix if and only if both belong to the same window. |
| `RoomTables.WindowFound` | wavis-backend/src/state.rs:243-245 | The window of an identity is its text from the last "-vw-" on. |
| `RoomTables.NoWindowIff` | wavis-backend/src/state.rs:243-245 | An identity has no window exactly when "-vw-" does not occur in it. |
| `RoomTables.RecordedIs` | wavis-backend/src/state.rs:238-251 | A request is refused exactly when eight identities of other windows are held; a refused one changes nothing; an accepted one replaces what was held for the window; at most eight, one a window, remain. |
| `RoomTables.HeldYetRefused` | wavis-backend/src/state.rs:238-251 | A held identity without a window marker is accepted again if and only if fewer than eight are held. |
| `RoomTables.RoomInfo.AddRevokedParticipant` | wavis-backend/src/state.rs:200-203 | Stores the time and keeps the table faithful to the log. |
| `RoomTables.RoomInfo.IsParticipantRevoked` | wavis-backend/src/state.rs:208-214 | Prunes and answers from the table: a participant is refused exactly until its window has passed; the answer is the full log's whenever the query reaches no further back than what was pruned before. |
| `RoomTables.RoomInfo.RecordViewerIdentity` | wavis-backend/src/state.rs:238-251 | Keeps every peer's set within eight and one a window; accepts exactly below eight or for a held window, replacing what was held for it; leaves other peers alone. |
| `RoomTables.RoomInfo.TakeViewerIdentities` | wavis-backend/src/state.rs:255-260 | Hands out all identities of one peer and leaves it none; others are untouched. |
| `AudioQueue.PushAllKeepsNewest` | clients/shared/src/audio_buffer.rs:175-191 | Storing samples one by one keeps the newest that fit and counts each lost one once. |
| `AudioQueue.WriteKeepsNewest` | clients/shared/src/audio_buffer.rs:80-114 | A write leaves the newest part of the old contents followed by the batch, with the fill the fill law gives; every sample that goes is counted once, as backlog drop or overrun. |
| `AudioQueue.WriteOverruns` | clients/shared/src/audio_buffer.rs:196-213 | Overruns rise by what does not fit after preemption; with the threshold within the capacity, by exactly what of the batch exceeds the capacity. |
| `AudioQueue.WriteDropEvents` | clients/shared/src/audio_buffer.rs:80-114 | How often a write counts a backlog drop: once if samples were there and the batch takes the fill over the threshold, once more if what lands of the batch alone exceeds the threshold and a frame. |
| `AudioQueue.WriteBounded` | clients/shared/src/audio_buffer.rs:80-114 | The fill after any write is at most the smaller of the capacity and the larger of threshold and one frame, and a whole frame stays when the threshold holds one. |
| `AudioQueue.BacklogReachesTargetIff` | clients/shared/src/audio_buffer.rs:80-114 | A write that meets a backlog ends at the target if and only if the batch alone exceeds a threshold below the capacity and the target holds a frame, or (otherwise) the target is the capacity or there is no margin. |
| `AudioQueue.BacklogStaysAboveTarget` | clients/shared/src/audio_buffer.rs:80-114 | A buffer at its threshold, written one sample, stays at the threshold. |
| `AudioQueue.FramesStayIff` | clients/shared/src/audio_buffer.rs:80-114 | No write takes a whole frame away if and only if the threshold holds a frame or the buffer cannot. |
| `AudioQueue.AttainableIff` | clients/shared/src/audio_buffer.rs:80-235 | A buffer can be brought to a fill if and only if it is at most the capacity and at most the larger of the threshold and one frame. |
| `AudioQueue.Conservation` | clients/shared/src/audio_buffer.rs:80-287 | Over every run of writes, reads and skips: written equals read plus skipped plus backlog-dropped plus overrun plus available; what is available is the newest part of the stream; what was read is a subsequence of it in order, no sample twice. |
| `AudioQueue.DropEventsCounted` | clients/shared/src/audio_buffer.rs:80-114 | Over every run there are never more counted drop events than samples dropped, and none counted only when none was dropped. |
| `AudioQueue.DrawnInOrder` | clients/shared/src/audio_buffer.rs:218-235 | Reads of any lengths hand out the oldest samples in order, everything once as much has been asked for, and each read that comes up short counts one underrun. |
| `AudioQueue.ReadsBackIff` | clients/shared/src/audio_buffer.rs:196-235 | A batch written to a fresh buffer is read back whole, by any reads that ask for as much, if and only if the buffer can be so full. |
| `AudioQueue.RoundTripCut` | clients/shared/src/audio_buffer.rs:196-235 | Any 5761 samples written to a fresh buffer for 9600 with the default target and margin do not come back whole. |
| `AudioBuffer.DownmixNext` | clients/shared/src/audio_buffer.rs:160-193 | One frame on, the next mono sample is the average of the next interleaved frame. |
| `AudioBuffer.DownmixLength` | clients/shared/src/audio_buffer.rs:160-193 | There are as many mono samples as whole frames. |
| `AudioBuffer.DownmixAt` | clients/shared/src/audio_buffer.rs:160-193 | Mono sample j is made of interleaved frame j. |
| `AudioBuffer.StereoAverages` | clients/shared/src/audio_buffer.rs:160-193 | Of two channels every mono sample is the mean of left and right. |
| `AudioBuffer.MonoOfEqual` | clients/shared/src/audio_buffer.rs:171-178 | A frame of equal samples gives that sample. |
| `AudioBuffer.MonoPermutes` | clients/shared/src/audio_buffer.rs:171-178 | The order of the channels does not matter. |
| `AudioBuffer.MonoLinear` | clients/shared/src/audio_buffer.rs:171-178 | Mixing two signals and downmixing commute; with the two laws above only the average does this. |
| `AudioBuffer.VolumeCurve` | clients/shared/src/peer_volumes.rs:30-34 | The gain is three times the cube of the volume over 100, and 3 from 100 on. |
| `AudioBuffer.SlotsDistinct` | clients/shared/src/audio_buffer.rs:160-235 | Positions closer than the capacity never share a slot of the ring. |
| `AudioBuffer.AudioBuffer.WithTarget` | clients/shared/src/audio_buffer.rs:128-150 | A new buffer of some duration is the empty queue with 48 samples a millisecond as limits; one of no duration has no slots. |
| `AudioBuffer.AudioBuffer.PreemptForIncoming` | clients/shared/src/audio_buffer.rs:80-96 | On the ring, what the queue's preemption says. |
| `AudioBuffer.AudioBuffer.EnforceBacklogDrop` | clients/shared/src/audio_buffer.rs:100-114 | On the ring, what the queue's backlog drop says. |
| `AudioBuffer.AudioBuffer.PushSample` | clients/shared/src/audio_buffer.rs:196-213 | Storing in the next slot and pushing the reader on appends to the queue and drops its oldest sample when full. |
| `AudioBuffer.AudioBuffer.Write` | clients/shared/src/audio_buffer.rs:160-193 | Writing interleaved samples is the queue's write of their downmix. |
| `AudioBuffer.AudioBuffer.WriteMono` | clients/shared/src/audio_buffer.rs:196-213 | Writing mono samples is the queue's write. |
| `AudioBuffer.AudioBuffer.Read` | clients/shared/src/audio_buffer.rs:218-235 | Hands out as many of the oldest samples as asked for, or all when there are fewer, each times the volume gain; what is handed out is gone, the rest of the output is left alone, and one underrun is counted exactly when more was asked for than was there. |
| `AudioBuffer.AudioBuffer.SkipFrames` | clients/shared/src/audio_buffer.rs:280-287 | Drops so many of the oldest samples, or all when there are fewer, without touching a counter. |
| `AudioBuffer.AudioBuffer.PeekRecent` | clients/shared/src/audio_buffer.rs:295-311 | Shows the newest samples, zero-filled, and changes nothing. |
| `SendLoop.QuietTick` | clients/shared/src/webrtc_loops.rs:86-181 | A tick nobody interrupts sends the newest two whole frames of 960 samples in order, or as many as there are, drops the older ones (none exactly below 2880 samples), leaves the remainder and moves no counter. |
| `SendLoop.SelectionIs` | clients/shared/src/webrtc_loops.rs:528-536 | The extracted selection sends two frames or all of fewer and drops the others. |
| `SendLoop.TickSendsWhole` | clients/shared/src/webrtc_loops.rs:118-129 | Whatever is written meanwhile, a tick sends at most two frames and only whole ones. |
| `SendLoop.FrameSurvives` | clients/shared/src/audio_buffer.rs:196-213 | Whatever others write, a whole frame that was seen stays, if the threshold holds one. |
| `SendLoop.TickNeverUnderrunsIff` | clients/shared/src/webrtc_loops.rs:118-129 | No writes between the tick's calls can make it raise the underrun counter, if and only if the backlog threshold holds a frame or the buffer is smaller than one. |
| `SendLoop.StolenFrame` | clients/shared/src/webrtc_loops.rs:118-129 | With a lower threshold, one sample written between check and read takes the frame away. |
| `SendLoop.SendFrames` | clients/shared/src/webrtc_loops.rs:118-129 | The reading loop on the ring, with other threads writing at every gap, sends the frames and leaves the queue of its specification. |
| `SendLoop.ShedBacklog` | clients/shared/src/webrtc_loops.rs:100-116 | The backlog drop on the ring, with other threads writing at every gap. |
| `SendLoop.SendTick` | clients/shared/src/webrtc_loops.rs:86-181 | The whole tick on the ring is the tick of the specification, for every interleaving of writers: at most two frames, each of 960 samples; uninterrupted, two or all of fewer, with the older ones dropped and less than a frame left. |
| `JsonDepth.ScanConcat` | clients/shared/src/signaling.rs:27-62 | Scanning a text is scanning its parts in turn. |
| `JsonDepth.StrayClosers` | clients/shared/src/signaling.rs:55-57 | Closing brackets that close nothing change nothing, whatever text follows. |
| `JsonDepth.CheckJsonDepth` | clients/shared/src/signaling.rs:27-62 | For arbitrary text the early-exit guard accepts if and only if the full-scan maximum depth is within the limit. |
| `JsonDepth.ReferenceMaxDepth` | clients/shared/src/signaling.rs:130-166 | The reference scan returns the greatest depth. |
| `JsonDepth.ValueRises` | clients/shared/src/signaling.rs:27-62 | Scanning a printed value rises by exactly its tree depth and returns to where it started. |
| `JsonDepth.ScanMeasuresDepth` | clients/shared/src/signaling.rs:27-62 | For every JSON value, however escaped and spaced, the scan's peak is the nesting depth of the tree, and the scan ends where it started. |
| `JsonDepth.GuardValue` | clients/shared/src/signaling.rs:107-118 | The guard lets a JSON text through if and only if its tree depth is within the limit. |
| `RtpAccounting.SortedIsSort` | clients/shared/src/audio_network_monitor.rs:113-114 | The batch sort orders by wire number and permutes. |
| `RtpAccounting.SortedStable` | clients/shared/src/audio_network_monitor.rs:113-114 | Packets with equal wire numbers keep their order of arrival. |
| `RtpAccounting.StepTracksIff` | clients/shared/src/audio_network_monitor.rs:116-132 | One packet is counted as its true number demands if and only if it is at most 0x7FFF ahead, or behind by a distance that does not look like being ahead. |
| `RtpAccounting.BatchTracks` | clients/shared/src/audio_network_monitor.rs:116-132 | A batch within the span is counted right in whatever order. |
| `RtpAccounting.PolledTracks` | clients/shared/src/audio_network_monitor.rs:112-132 | So is every run of polls. |
| `RtpAccounting.FirstIsLeast` | clients/shared/src/audio_network_monitor.rs:112-132 | The packet ingested first has the least wire number of the first batch. |
| `RtpAccounting.MonitorTracks` | clients/shared/src/audio_network_monitor.rs:112-132 | From a fresh monitor, over every run of spanning batches: the tracker holds the true maximum, expected is that maximum minus the first ingested plus one, received counts every packet. |
| `RtpAccounting.LossIsMissingIff` | clients/shared/src/audio_network_monitor.rs:167-174 | Expected minus received is the number of missing packets if and only if there are no duplicates and none is older than the first. |
| `RtpAccounting.FirstIsTrueFirstIff` | clients/shared/src/audio_network_monitor.rs:112-132 | For a first batch within the span, the packet ingested first is the true first if and only if all its numbers have the same high part. |
| `RtpAccounting.RunLossIff` | clients/shared/src/audio_network_monitor.rs:112-174 | Over every run of spanning batches from a fresh monitor: expected minus received is the number of packets missing between the true first and last if and only if there are no duplicates, the 16 bits do not wrap within the first poll and nothing later is older than that poll. |
| `RtpAccounting.RunRatioIff` | clients/shared/src/audio_network_monitor.rs:112-174 | Over every run of spanning batches the reported, saturated ratio is the missing share of the true span if and only if nothing is missing or that condition holds. |
| `RtpAccounting.FirstPollWraps` | clients/shared/src/audio_network_monitor.rs:112-132 | A first poll of 65535 and 65536: one expected, two received, none missing, and a ratio of zero. |
| `RtpAccounting.WrapHidesLoss` | clients/shared/src/audio_network_monitor.rs:167-174 | A first poll of 65535 and 65537: 65536 is missing and the ratio is zero. |
| `RtpAccounting.RatioIsMissingShare` | clients/shared/src/audio_network_monitor.rs:167-174 | Then the reported ratio is the missing share of the span. |
| `RtpAccounting.DuplicateHidesLoss` | clients/shared/src/audio_network_monitor.rs:167-174 | Packets 0, 2, 2 are counted as no loss. |
| `RtpAccounting.EmaBounded` | clients/shared/src/audio_network_monitor.rs:134-138 | The moving average of the jitter never leaves the range of its samples. |
| `RtpAccounting.EmaFades` | clients/shared/src/audio_network_monitor.rs:134-138 | While the jitter stays the same, the average closes one sixteenth of the distance to it with every packet. |
| `RtpAccounting.JitterIs` | clients/shared/src/audio_network_monitor.rs:134-136 | A packet some milliseconds off the 20 ms pace has that much jitter, early or late. |
| `RtpAccounting.PacedIsSteady` | clients/shared/src/audio_network_monitor.rs:134-146 | A stream of any length with a packet every 20 ms has no jitter. |
| `RtpAccounting.RealNetworkMonitor.Ingest` | clients/shared/src/audio_network_monitor.rs:112-149 | The counters and jitter samples of the sorted batch are added; the window holds the newest 100 samples, or all of fewer. |
| `RtpAccounting.RealNetworkMonitor.PollStats` | clients/shared/src/audio_network_monitor.rs:178-200 | A poll ingests all that is pending and reports the loss ratio and the average over every jitter sample so far. |
| `Resample.PositionInside` | clients/shared/src/livekit_audio_mixing.rs:88-112 | For every length and rate, every output position lies inside the input, so both interpolation indexes are in bounds. |
| `Resample.InterpolateBetween` | clients/shared/src/livekit_audio_mixing.rs:88-112 | An interpolated sample lies within any bounds of the input. |
| `Resample.ResampleLinear` | clients/shared/src/livekit_audio_mixing.rs:88-112 | As many outputs as cover the input and no more; each is mixed from the two inputs around its position, in parts of 48000, the last input being held; outputs stay in the range of the input. |
| `Resample.InterpolateOnLine` | clients/shared/src/livekit_audio_mixing.rs:103-111 | The interpolation at a position is the mix of its two neighbours weighted by the remainder of i * rate by 48000. |
| `Resample.StraightLine` | clients/shared/src/livekit_audio_mixing.rs:88-112 | A straight-line signal comes out as the same straight line, up to the last input, for every rate. |
| `Resample.MonoOfAt` | clients/shared/src/livekit_audio_mixing.rs:75-86 | Each mono sample is the average of its frame. |
| `Resample.InputsComeBack` | clients/shared/src/livekit_audio_mixing.rs:88-112 | If the rate divides 48000, every (48000/rate)-th output is an input, and all inputs come back. |
| `Resample.ConvertAudioFrame` | clients/shared/src/livekit_audio_mixing.rs:55-114 | Zero rate gives nothing, 48 kHz gives the downmix; for every other rate as many outputs as cover the input, each mixed from the two inputs around its position in parts of 48000, so that outputs stay within the range of the mono input and the inputs come back when the rate divides 48000. |
| `Biquad.FilterIsDifferenceEquation` | clients/shared/src/biquad.rs:126-132 | From rest, on every finite signal, the two-state transposed form yields the difference equation. |
| `Biquad.FilterLinear` | clients/shared/src/biquad.rs:126-132 | Superposition from any pair of states. |
| `Biquad.FilterConcat` | clients/shared/src/biquad.rs:126-132 | A signal may be filtered in parts, the state carried over. |
| `Biquad.EnergyFalls` | clients/shared/src/biquad.rs:126-132 | In silence the ringing energy of a stable filter does not grow. |
| `Biquad.RingingBounded` | clients/shared/src/biquad.rs:126-132 | Once the input stops, every output of a stable filter stays within a bound set by the state it was left in. |
| `BiquadDecay.TwoSamplesTake` | clients/shared/src/biquad.rs:126-132 | Two samples of silence take a fixed positive share of the ringing energy. |
| `BiquadDecay.Decays` | clients/shared/src/biquad.rs:126-132 | After 2n samples of silence the energy is at most the (1 + n rate)-th part. |
| `BiquadDecay.SilenceVanishes` | clients/shared/src/biquad.rs:126-132 | In silence the output of a stable filter tends to zero: for every bound there is a time from which on no sample exceeds it. |
| `BiquadBounds.DecaysGeometrically` | clients/shared/src/biquad.rs:126-132 | After 2n samples of silence at most the n-th power of (1 - rate) of the ringing energy is left. |
| `BiquadBounds.RingingOfSum` | clients/shared/src/biquad.rs:126-132 | The ringing energy of a sum of states is bounded by those of its parts, weighted either way. |
| `BiquadBounds.BoundedAnswer` | clients/shared/src/biquad.rs:126-132 | A stable filter answers every signal within a bound by one within a bound that does not depend on its length. |
| `Biquad.TuningsStable` | clients/shared/src/biquad.rs:56-84 | Every low-pass and high-pass tuning lies strictly inside the stability triangle. |
| `Biquad.LowPassGain` | clients/shared/src/biquad.rs:56-69 | Low-pass: unit gain at frequency zero, none at half the sample rate. |
| `Biquad.HighPassGain` | clients/shared/src/biquad.rs:71-84 | High-pass: no gain at frequency zero, unit gain at half the sample rate. |
| `Biquad.ConstantsPassOrVanish` | clients/shared/src/biquad.rs:56-84 | A low-pass in its steady state passes a constant unchanged; a high-pass keeps it out. |
| `Biquad.ToneGain` | clients/shared/src/biquad.rs:56-84 | A tone of any phase and length at the tuned frequency leaves both filters exactly q times as strong (q at least 0.001), a quarter turn late from the low-pass and early from the high-pass. |
| `Biquad.Filtering.SetNormalized` | clients/shared/src/biquad.rs:110-124 | Every coefficient times a0 is what was given; with a0 closer to zero than the 32-bit epsilon the filter passes its input on. |
| `Biquad.Filtering.RetuneLowPass` | clients/shared/src/biquad.rs:56-69 | Sets the low-pass coefficients, stable for a proper angle, and keeps the delay line. |
| `Biquad.Filtering.RetuneHighPass` | clients/shared/src/biquad.rs:71-84 | Sets the high-pass coefficients, stable for a proper angle, and keeps the delay line. |
| `Biquad.Filtering.ProcessAll` | clients/shared/src/biquad.rs:126-132 | A signal sample by sample is the response of the filter; from rest it obeys the difference equation. |
| `Gate.Reachable` | clients/shared/src/denoise_filter.rs:144-161 | In every run the gain is a whole number of tenths in [0, 1] and the hold counter is the number of close decisions just seen. |
| `Gate.GainInRange` | clients/shared/src/denoise_filter.rs:169-185 | In every run the gain stays in [0, 1]. |
| `Gate.SpeechIff` | clients/shared/src/denoise_filter.rs:110-112 | A sub-frame counts as speech exactly when the voice probability is at least 0.5 and the loudness at least 150. |
| `Gate.RampIs` | clients/shared/src/denoise_filter.rs:209-226 | For every length the ramp goes from the first gain to the last in equal steps; a single sample gets the first. |
| `Gate.FallsIff` | clients/shared/src/denoise_filter.rs:144-161 | The gain falls if and only if the last three decisions were to close and the gate was not shut. |
| `Gate.OpensAndShutsInTime` | clients/shared/src/denoise_filter.rs:144-185 | After any history five opens open the gate fully and twelve closes shut it. |
| `Gate.ElevenClosesLeaveAGap` | clients/shared/src/denoise_filter.rs:144-185 | From fully open eleven closes leave a tenth. |
| `Gate.EnvelopeSmooth` | clients/shared/src/denoise_filter.rs:209-226 | Over every run from a fresh gate the per-sample gain is continuous across sub-frames and no step exceeds 0.2/479. |
| `Gate.SmoothGate.Step` | clients/shared/src/denoise_filter.rs:144-161 | Counts close decisions in a row; after two of them the next takes 0.1 off the gain (to 0 below 0.01), every other decision adds 0.2 up to 1; returns the gain before and after. |
| `Gate.ApplyGateGain` | clients/shared/src/denoise_filter.rs:191-202 | Every sample is scaled, on the shortcut paths too. |
| `Gate.ApplyGateGainRamped` | clients/shared/src/denoise_filter.rs:209-226 | Every sample is scaled by its point on the ramp, on the level-gain shortcut too. |
| `Gate.GateSubframe` | clients/shared/src/denoise_filter.rs:246-263 | One sub-frame is scaled by the ramp between the gain before and after; speech (at least 0.5 and 150) raises the gain by 0.2 up to 1 and ends a hold, all else extends it. |
| `Mixer.MixAudioTracks` | clients/shared/src/audio_mixer.rs:8-26 | Every output sample is the sum of the tracks, short tracks being silent past their end; a sum above 1 gives 1, one below -1 gives -1. |
| `Basics.ClampIsNearest` | clients/shared/src/audio_mixer.rs:22-25 | No value of [-1, 1] is nearer to a sample than what it is clamped to. |
| `Mixer.SumJoins` | clients/shared/src/audio_mixer.rs:14-20 | Tracks mixed together add up to the tracks mixed apart. |
| `Mixer.SumOfOne` | clients/shared/src/audio_mixer.rs:14-20 | One track alone is heard as it is and silent past its end. |
| `Mixer.SumPermutes` | clients/shared/src/audio_mixer.rs:8-26 | The sum does not depend on the order of the tracks. |
| `Mixer.TrackConserves` | clients/shared/src/livekit_audio_mixing.rs:148-187 | Over every run of a queue: enqueued equals delivered plus trimmed plus abandoned plus queued, in arrival order, and after a tick at most 9600 samples are queued. |
| `Mixer.TickedIs` | clients/shared/src/livekit_audio_mixing.rs:153-186 | A tick takes 960 samples off a queue, or all of fewer; of more than 9600 left the newest 4800 stay. |
| `Mixer.FrameIsNext` | clients/shared/src/livekit_audio_mixing.rs:153-173 | A delivered frame is the next stretch of the stream, its last sample held to fill up. |
| `Mixer.FrameOfIs` | clients/shared/src/livekit_audio_mixing.rs:158-173 | A frame is the oldest 960 samples, or all of fewer and the last one held. |
| `Mixer.FramesOfOne` | clients/shared/src/livekit_audio_mixing.rs:153-175 | A queue that holds anything gives one frame, an empty one none. |
| `Mixer.MixOrderIrrelevant` | clients/shared/src/livekit_audio_mixing.rs:142-207 | The mixed frame does not depend on the order the queues are visited in. |
| `Mixer.PopFrame` | clients/shared/src/livekit_audio_mixing.rs:153-173 | Popping and holding builds the frame and leaves the rest. |
| `Mixer.RetainAndTrim` | clients/shared/src/livekit_audio_mixing.rs:177-185 | Empty queues go; the others are trimmed to the target when over the cap. |
| `Mixer.RemoteQueues.Extend` | clients/shared/src/livekit_audio_mixing.rs:278-282 | Samples are appended to one track's queue only. |
| `Mixer.RemoteQueues.Drop` | clients/shared/src/livekit_audio_mixing.rs:296-296 | One track's queue goes, the others stay. |
| `Mixer.RemoteQueues.Tick` | clients/shared/src/livekit_audio_mixing.rs:142-207 | Every queue moves on as its own model says, retained queues hold 1 to 9600 samples, a frame of 960 samples is mixed exactly when some queue had audio; it is the sum cut to [-1, 1] and, with several tracks, that times the gain cut again. |
| `CapturePump.PumpConserves` | clients/shared/src/livekit_connection.rs:831-871 | Over every run: total read equals delivered plus dropped plus pending, pending is the newest of what was read and at most 5760, and frames leave exactly once primed. |
| `CapturePump.FilledTo` | clients/shared/src/livekit_connection.rs:841-847 | Up to 5760 samples wait; of more the newest 2880 stay and the others are counted as dropped. |
| `CapturePump.PrimedForGood` | clients/shared/src/livekit_connection.rs:849-857 | The pump is primed by the first tick that finds 2880 samples waiting and stays so; primed it sends one frame every tick, until then none; the priming tick does not underrun. |
| `CapturePump.FrameIsNext` | clients/shared/src/livekit_connection.rs:859-871 | The frame of a tick is the next stretch of the stream, clamped. |
| `CapturePump.QuietPull` | clients/shared/src/livekit_connection.rs:831-839 | Undisturbed, a pull takes up to two frames of the oldest samples and touches no counter. |
| `CapturePump.PullNeverUnderrunsIff` | clients/shared/src/livekit_connection.rs:831-839 | In every state the buffer can be in, and whatever the device writes between the two calls, a pull never raises the underrun counter, if and only if the limits are safe: the threshold is not below the capacity, or holds a frame and is that frame, or has no margin, or has a target of two frames. |
| `CapturePump.MicPump.Pull` | clients/shared/src/livekit_connection.rs:831-839 | On the ring, with the device writing between asking and reading: the samples and the buffer of the specification. |
| `CapturePump.MicPump.FillFrame` | clients/shared/src/livekit_connection.rs:859-878 | The oldest 960 samples leave in order, each cut to [-1, 1]; with fewer, all leave, the last one sent is held to the end of the frame and one underrun is counted. |
| `CapturePump.MicPump.Tick` | clients/shared/src/livekit_connection.rs:806-906 | One tick on the ring buffer is the tick of the specification. |
| `CapturePump.DownmixConcat` | clients/shared/src/cpal_audio.rs:162-169 | Downmixing respects cuts between channel frames. |
| `CapturePump.ChunksConcat` | clients/shared/src/cpal_audio.rs:171-199 | Chunks of a stream can be cut as it arrives. |
| `CapturePump.DiscardsIff` | clients/shared/src/cpal_audio.rs:201-207 | The guardrail discards samples if and only if the resampler failed with more than eight chunks queued behind the failing one. |
| `CapturePump.FeedAllIs` | clients/shared/src/cpal_audio.rs:171-199 | A callback feeds every whole chunk of what is queued, or those up to and with the first that fails; chunks and remainder together are what was queued. |
| `CapturePump.CallbackConserves` | clients/shared/src/cpal_audio.rs:157-209 | Every sample is fed, discarded or still queued, in order; at most eight chunks stay queued, and exactly eight when any sample is discarded. |
| `CapturePump.SplitIrrelevant` | clients/shared/src/cpal_audio.rs:157-209 | For every cut between channel frames and a resampler that does not fail, the chunks fed are those of the whole downmixed stream, less than a chunk is left and nothing is discarded. |
| `CapturePump.SameSamplesSameChunks` | clients/shared/src/cpal_audio.rs:157-209 | Two runs with the same samples feed the same chunks. |
| `CapturePump.ChunkQueue.OnCallback` | clients/shared/src/cpal_audio.rs:157-209 | One callback feeds and keeps what the specification says, with a resampler that fails after any number of chunks. |

## Left out

- WebSocket, HTTP, database, cloud and LiveKit SDK calls, the user interfaces, scripts and smoke tests: input and output.
- RNNoise, Opus, the resampler library and the other codecs: the voice probability, loudness, chunk size and the chunk that fails are inputs.
- Floating-point rounding, not-a-number and infinity handling: samples and gains are exact reals.
- The jitter window's standard deviation and the rate limiting of `set_rtt`: a square root and a single branch.
- The 1/sqrt(n) attenuation: the gain is a parameter of the mixer tick, and no bound on it is needed.
- High-shelf coefficients and the de-esser: trigonometry and powers for little structure.
- Sub-rooms, share permissions and invites: only their types are in the modelled file.
- Machine widths of counters and positions (64-bit and 32-bit): natural numbers here; the 16-bit sequence number is modelled as such.
- Token refresh, meters, encoding results, log lines and the deadline arithmetic of the capture pump (`frame_idx`, lateness): they do not touch the samples.
- Lock poisoning: a thread whose `unwrap` fails drops its guards and ends, and later lock requests succeed.
- RegistryRuns.CapacityHolds: room closures are taken to touch metadata only and never to lower the maximum, because the closures live in other files.
- RegistryRuns.NoDeadlock: the join closure is taken to take none of the three locks, as the source's comment asks of it.
- RegistryAtomic.UninterruptedIsAtomic: speaks of one method run without interruption; interleaved runs are covered by the step system's own theorems.
- RegistryOverlaps.OverlappedAgreesIff: for runs without removing bodies; `RegistryRest.AgreesBetweenIff` has them.
- RegistryRest.AgreesBetweenIff: for a peer whose own calls do not overlap each other; where they do and peers are removed as well, no exact condition is given.
- Registry.InMemoryRoomState.CreateRoom: keeps of a room's metadata only its maximum, because no modelled method reads the rest.
- AudioBuffer.AudioBuffer.WithTarget: the other methods ask for a buffer of some duration, because the source divides by the capacity when it stores or reads.
- AudioBuffer.AudioBuffer.Read: the output slice is not the ring itself, which the source's borrow rules enforce.
- RtpAccounting.RealNetworkMonitor.PollStats: reports loss and average jitter; the round-trip time and the jitter deviation are not modelled.
- Biquad.Filtering.RetuneLowPass: sine and cosine of the angle are inputs; the clamp of the cutoff and the angle are not modelled, because they only feed the two functions.
- Biquad.Filtering.RetuneHighPass: as the low-pass.
- Biquad.TuningsStable: sine and cosine of the angle are inputs with the square law; the clamp of the cutoff that keeps the angle between zero and half a turn is not modelled.
- JsonDepth.ScanMeasuresDepth: numbers and literal names are any text without quotes and brackets, which covers more than JSON.
- CapturePump.ChunkQueue.OnCallback: the chunk size is above zero and constant within a callback, and the gained output of the resampler is not modelled.
