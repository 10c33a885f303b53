# Verified model of scuff's core

scuff runs audio plugins in sandbox processes. A client library talks to the sandboxes
through message channels, a processing barrier and audio buffers in shared memory. This
project models the parts of it that are protocols, state machines and algorithms, and
proves what they guarantee.

`dafny verify dfyconfig.toml` checks everything.

| files | component |
|---|---|
| `Bytes`, `Codec`, `CodecLayout`, `CodecImpl`, `Messages` | serialization of the messages, as byte vectors and spans |
| `Channel`, `ChannelCalls`, `ChannelLocks`, `ChannelImpl`, `MessageChannel` | sender, bounded shared buffer, receiver |
| `Barrier`, `BarrierCrashFree`, `BarrierLawful`, `BarrierProgress`, `BarrierFailures`, `BarrierUse`, `BarrierSemaphore` | the group processing barrier, what becomes of it when threads fail, and how the client uses it |
| `Lifetimes`, `LifetimeRuns`, `ModelUpdates`, `ActiveCounts` | group, sandbox and device tables with deferred deletion |
| `Handles`, `LateHandles`, `HandlesImpl` | reference-counted handles on those tables |
| `Order`, `IterationOrders`, `Rewiring` | device processing order of a sandbox, connecting and disconnecting |
| `AudioPass`, `Latency`, `Rack`, `OneSandboxRack`, `RoundHistory`, `Interleaving`, `AudioRounds`, `AudioProgress`, `AudioCalls`, `RackCalls` | one processing pass, rounds over all sandboxes of a group, devices in series, the rounds on the barrier |
| `Patching`, `CrossPatching` | what connecting ports does to the audio |
| `SlotBuffer` | callback slots |

How the pieces fit:

- **Channel.** The state machine in `Channel` takes one shared-memory access per step, so a
  list of steps is any interleaving of the loops of `send` and `receive`, with short
  transfers and lock timeouts. `ChannelCalls` shows that a whole call is a run of the
  machine, and `ChannelImpl` that the objects, updated in place, do what the call does.
  `ChannelLocks` says which attempts to lock the buffer a call makes. The codec enters through `Protocol`; `MessageChannel` supplies the two message types.
- **Barrier.** Steps are single atomic operations. A Windows `wait` is two of them (wake,
  reset). A step that is not enabled is skipped, so theorems over lists of steps are
  theorems over all schedules. Safety (`Barrier`, `BarrierCrashFree`) takes either kind of
  event and rounds that signal anybody, any number of times. `BarrierProgress` counts the
  steps of a round, so that no schedule can keep it from ending: resettable events need
  distinct targets for that (`BarrierLawful`), semaphores do not (`BarrierSemaphore`).
  `BarrierFailures` says what a crash, a stop and `unblock_self` do.
- **Lifetimes.** `After(m, running, e)` says in one expression what is left when everything
  in `e` has been asked to go. The cascading erase functions are proved equal to it, one
  call at a time and over sequences. `ModelUpdates` says of every other update what it
  changes and what it leaves alone.
- **Audio.** `DeviceSees` says what one device finds at an input port during a pass.
  `ChainLatency` adds this up over rounds, sandboxes and connections between sandboxes.
  `Interleaving` shows that the schedule of the sandboxes in a round does not matter.
  `AudioRounds` puts the buffers under the barrier machine: that client and sandboxes keep
  out of each other's way is proved there, and the latency with it; `AudioProgress` adds when
  the client reads, and `AudioCalls` puts it all in terms of what is written and read, call
  by call. `Patching` and `CrossPatching` lead from the model updates to the audio.
- **Handles.** `Handles` is a machine over any number of handles; `HandlesImpl` takes the
  objects, in place and aliased as they may be, through its runs.

## What the code does otherwise than described

- README.md:82 and README.md:85 of the repository describe producers being processed before
  their consumers, which would give a chain inside one sandbox no extra latency.
  `find_insertion_index` inserts a consumer before its producer.
  `Order.ProducersFirstIffUnwired` gives the exact condition. A chain inside one sandbox whose
  first device nothing feeds loses a round in every iteration order
  (`Latency.UnfedChainAlwaysDelays`), and up to one per link
  (`Latency.OneSandboxChainDelaysEveryLink`); `OneSandboxRack` proves both of the
  documentation's second scenario. `IterationOrders.ProducerFirstIff` says which
  single connections some iteration order serves as documented.
- The lambda in `do_sandbox_processing` never advances its iterator, so all signals of a
  round go to the first sandbox of the group. What can come of it: done is returned although
  only that sandbox has worked (`BarrierUse.OnlyFirstWorksRun`); the client waits for ever,
  because several signals have merged in the resettable event (`BarrierUse.MergedSignalsHang`)
  or because that sandbox is absent (`BarrierUse.FirstAbsentHangs`).
  `BarrierUse.RoundsEndIffOneSignal` says exactly when every round ends, and
  `BarrierSemaphore.SemaphoreRoundsEndIff` when it does with semaphores, which merge nothing;
  `BarrierUse.ClientWaitsIffOnlyFirstActive` says when every round ends with every active
  sandbox finished. What `Barrier` and `BarrierCrashFree` prove holds of these rounds too: done is
  never returned before all signals of the round have been answered.
- `deactivate` leaves the client's count as it is while the sandboxes stop their audio
  threads: `BarrierProgress.StoppedTargetBlocks`.
- The outputs of an inactive group are zeroed after its sandboxes have been signalled:
  `BarrierUse.BuffersSeparateIff`.
- `erase` never prunes connections between sandboxes: `Lifetimes.ConnsValidIffUntouched`, and
  `LifetimeRuns.DanglingIsReachable` for a run.
- Both overloads for `device_create` skip its `callback`:
  `Messages.InMessageRoundTrip`.
- A new handle on an object that is gone or marked for deletion does not keep it:
  `Handles.HandlesAreExact` says that reference counting is exact if and only if there is no
  such handle, `LateHandles.LateHandleFaults` what becomes of one, and
  `LateHandles.LateRunFaults` is a run that ends in a throw.

## Model

| member | source | states |
|---|---|---|
| Bytes.SizeRoundTrip | common/include/common-serialize.hpp:86-91 | every size_t survives being written as 8 little-endian bytes and read back |
| Bytes.SizeBytesAreDigits | common/include/common-serialize.hpp:86-91 | the 8 bytes of a size are its digits to the base 256, the least significant first |
| Codec.RoundTrip | common/include/common-serialize.hpp:19-134 | for every message type and value, with strings and vectors of any length and any nesting: reading what was written, followed by anything, gives the value up to skipped fields and leaves exactly what followed |
| Codec.RoundTripAll | common/include/common-serialize.hpp:43-51 | the same for the elements of a vector |
| Codec.RoundTripFields | common/include/common-serialize-messages.hpp:7-210 | the same for the fields of a struct with its own overloads |
| Codec.EncodingsSplitUniquely | common/include/common-serialize.hpp:123-134 | no encoding is a proper prefix of another, so a byte stream splits into values in one way |
| Codec.CompleteIsLossless | common/include/common-serialize-param-info.hpp:6-24 | a value of a type whose overloads skip no field arrives unchanged |
| Codec.DecodedFits | common/include/common-serialize.hpp:19-84 | whatever bytes deserialize is given, what it returns is a value of its type |
| Codec.FitsIffReceivable | common/include/common-serialize.hpp:19-134 | for types whose overloads skip nothing, the values that can be sent are exactly those that can be received |
| CodecLayout.TextLayout | common/include/common-serialize.hpp:93-113 | a string is its length, in the first 8 bytes, and then its characters |
| CodecLayout.TrivialLayout | common/include/common-serialize.hpp:86-113 | an optional is a byte 0, or a byte 1 and the value; a trivial value is its bytes and a skipped field none |
| CodecLayout.VariantLayout | common/include/common-serialize.hpp:123-134 | a variant is its index, in the first 8 bytes, and then its alternative |
| CodecLayout.ListLayout | common/include/common-serialize.hpp:115-121 | a vector is the number of its elements and then the elements; each lies right after those before it |
| CodecLayout.RecordLayout | common/include/common-serialize-messages.hpp:7-210 | a struct with its own overload is its fields in their order, each right after those before it, without the skipped ones |
| CodecImpl.Serialize | common/include/common-serialize.hpp:86-134 | appends the encoding to the vector and keeps what was there |
| CodecImpl.SerializeList | common/include/common-serialize.hpp:115-121 | the element loop appends the count and then every element in order |
| CodecImpl.Deserialize | common/include/common-serialize.hpp:19-84 | returns the decoded value and leaves the span where decoding ends; reports an invalid variant index |
| CodecImpl.DeserializeList | common/include/common-serialize.hpp:43-51 | the element loop decodes as many elements as the count says, in order |
| CodecImpl.DeserializeAlternative | common/include/common-serialize.hpp:53-66 | the template recursion selects the alternative with the given index, and throws if and only if there is none or its own decoding does |
| Messages.OutMessageRoundTrip | common/include/common-messages.hpp:88-106 | every message to the client arrives exactly as it was |
| Messages.InMessageRoundTrip | common/include/common-serialize-messages.hpp:7-13 | a message to a sandbox arrives unchanged if and only if it has no device_create callback to lose; a lost callback reads back as zero and nothing else changes |
| Messages.InAlternativeComplete | common/include/common-serialize-messages.hpp:116-122 | device_create is the only alternative with a skipped field |
| Channel.Feed | common/include/common-message-send-rcv.hpp:49-74 | one trip round the receive loop keeps the receiver's phases well formed, whatever bytes come in |
| Channel.Accepted | common/include/common-shm.hpp:100-110 | write takes all that is offered or fills the buffer, never overfills it, and takes nothing on a lock timeout |
| Channel.Offered | common/include/common-shm.hpp:86-99 | read hands out all that is wanted or all there is, and nothing on a lock timeout |
| Channel.EnqueuedAreTheEnqueues | common/include/common-message-send-rcv.hpp:11-13 | what has been enqueued in a run is exactly what its enqueue steps added, in order |
| Channel.TimeoutMovesNothing | common/include/common-shm.hpp:89-106 | a write without the lock changes nothing; a read without it moves no byte and ends its call, which returns what it has |
| Channel.HowReadsEnd | common/include/common-message-send-rcv.hpp:49-79 | a short read ends the call of receive, which returns its messages; a read that completes a message throws exactly when it does not decode; any other leaves the call going |
| Channel.FirstFrame | common/include/common-message-send-rcv.hpp:58-72 | as many bytes as a size, or as a frame, at the head of a stream of frames are the size, or the frame, of the first message |
| Channel.SizeReadKeepsInv | common/include/common-message-send-rcv.hpp:58-66 | the size that a completed size read finds is that of the next message to decode |
| Channel.MessageReadKeepsInv | common/include/common-message-send-rcv.hpp:67-73 | the bytes that a completed message read hands to deserialize are those of the next message, which is appended once |
| Channel.RunKeepsInv | common/include/common-message-send-rcv.hpp:9-86 | byte conservation, the phase tag and the decoded prefix hold along every run |
| Channel.ExactlyOnceInOrder | common/include/common-message-send-rcv.hpp:11-79 | in every interleaving, with any short transfers and lock timeouts, no receive throws and what receives have returned is a prefix of what was enqueued, in order, each message once |
| Channel.BytesConserved | common/include/common-message-send-rcv.hpp:17-77 | frames enqueued = frames decoded ++ partial frame ++ shared buffer ++ unsent tail ++ frames queued, in every reachable state |
| ChannelCalls.SendIsRun | common/include/common-message-send-rcv.hpp:15-36 | an uninterrupted call of send is a run of the machine |
| ChannelCalls.ReceiveIsRun | common/include/common-message-send-rcv.hpp:45-79 | an uninterrupted call of receive is a run of the machine |
| ChannelCalls.SendFills | common/include/common-message-send-rcv.hpp:15-36 | with the lock obtained, send moves as many pending bytes as the buffer has room for, in order, and keeps the rest |
| ChannelCalls.ReceiveEmpties | common/include/common-message-send-rcv.hpp:45-79 | with the lock obtained, receive empties the buffer, unless it throws |
| ChannelCalls.DeliveredIffNothingPending | common/include/common-message-send-rcv.hpp:15-79 | between calls, with an empty buffer, all messages have been returned if and only if no byte is left to send |
| ChannelCalls.DrainBound | common/include/common-constants.hpp:17 | T outstanding bytes are delivered and decoded after k alternations of send and receive if and only if k >= ceil(T / 4096), however large the messages are |
| ChannelCalls.AllArriveIff | common/include/common-message-send-rcv.hpp:9-86 | any messages, once enqueued, are all returned after k alternations, each as received and in order, if and only if k >= ceil(bytes of their frames / 4096) |
| ChannelLocks.SendLocks | common/include/common-message-send-rcv.hpp:15-36 | a call of send makes as many attempts to lock as it needs and is granted, and at most one that times out, after which it stops |
| ChannelLocks.ReceiveLocks | common/include/common-message-send-rcv.hpp:45-79 | the same for receive |
| ChannelLocks.SendTimesOut | common/include/common-shm.hpp:101-106 | a call of send that times out at once leaves the shared bytes alone and keeps all its pending bytes |
| ChannelLocks.ReceiveTimesOut | common/include/common-shm.hpp:86-91 | a call of receive that times out at once leaves the shared bytes alone, keeps its partial frame and returns no message |
| ChannelImpl.MsgBuffer.Read | common/include/common-shm.hpp:86-99 | takes bytes off the front, all that are wanted or all there are; on a lock timeout takes none and leaves the buffer as it was |
| ChannelImpl.MsgBuffer.Write | common/include/common-shm.hpp:101-110 | appends a prefix, all of it unless the buffer becomes full; on a lock timeout takes nothing and leaves the buffer as it was |
| ChannelImpl.Sender.Enqueue | common/include/common-message-send-rcv.hpp:11-13 | adds exactly the frame of the message to the bytes still to send |
| ChannelImpl.Sender.Send | common/include/common-message-send-rcv.hpp:14-36 | the loop on the object's fields terminates and does to sender and buffer what the specified call does |
| ChannelImpl.Receiver.Receive | common/include/common-message-send-rcv.hpp:45-79 | the loop on the object's fields terminates, does to receiver and buffer what the specified call does, and returns the messages of this call; if the first lock times out, it returns none and moves no byte |
| MessageChannel.CodecIsSound | common/include/common-serialize.hpp:123-134 | every message type encodes to at least 8 bytes and decodes to what is received, which is what the channel needs |
| MessageChannel.ClientReceivesWhatWasSent | common/include/common-messages.hpp:66-108 | the client receives a prefix of what the sandbox enqueued, unchanged |
| MessageChannel.SandboxReceivesWhatWasSent | common/include/common-messages.hpp:14-62 | the sandbox receives a prefix of what the client enqueued, but for the callback of device_create |
| MessageChannel.AllArriveAtClient | common/include/common-message-send-rcv.hpp:9-86 | any messages to the client of less than a million bytes each have all arrived, unchanged and in order, after k alternations of send and receive if and only if 4096k bytes are enough for their frames |
| MessageChannel.AllArriveAtSandbox | common/include/common-message-send-rcv.hpp:9-86 | the same for messages to a sandbox, but for the callback of device_create |
| Barrier.ZeroMeansAllAnswered | common/include/common-signaling.hpp:129-135 | the counter is zero exactly when every signal of the round has been answered by a fetch_sub of the sandbox it went to, and then no sandbox may do another one |
| Barrier.WorkIsCounted | common/include/common-signaling.hpp:129-131 | a working sandbox has a signal of this round to answer, so fetch_sub never wraps the counter and the client is still in the barrier |
| Barrier.RunKeepsInv | common/include/common-signaling.hpp:84-135 | with either kind of event and any targets, the round invariant survives crashes, stopping threads, new sandboxes and unblock_self until a round is given up |
| Barrier.DoneIsTrue | common/include/common-signaling.hpp:84-114 | with either kind of event, whatever sandboxes are signalled and however often, with crashes, stopping threads, unblock_self and stale events at any moment: every done before the first not_responding is returned after every signal of that round has been answered, each by the sandbox it went to |
| Barrier.ClientOwnsAlone | common/include/common-signaling.hpp:98-135 | under the same conditions, until a round is given up, while the client owns the buffers no sandbox is between waking and its fetch_sub, and no signal waits for one |
| BarrierCrashFree.RunKeepsExactInv | common/include/common-signaling.hpp:98-135 | without crashes, with either kind of event and whatever the targets, the counter, all_sandboxes_done and who has yet to set it agree along every run |
| BarrierCrashFree.EveryRoundCompletes | common/include/common-signaling.hpp:98-135 | without crashes, with either kind of event and whatever the targets, every round that has ended returned done after all its signals had been answered, by exactly one fetch_sub that saw prev_value == 1; and the counter is the number of signals still to be answered |
| BarrierCrashFree.SandboxesSleepWhileClientOwns | client/src/client.cpp:1590-1601 | while the client writes inputs, reads outputs or copies, every sandbox sleeps, or its thread has stopped, and no event is set for one that sleeps |
| BarrierLawful.ZeroMeansAllFinished | common/include/common-signaling.hpp:129-135 | when a round signals distinct sandboxes, the counter is zero exactly when every sandbox of it has finished, each once |
| BarrierLawful.RunKeepsLawful | common/include/common-signaling.hpp:98-135 | with distinct targets whose threads run, a sandbox's event and position say whether it is due, along every run |
| BarrierLawful.NoSetIsLost | common/include/common-ipc-event.hpp:129-147 | in such runs, no set meets an event that is already set or falls between wait and reset |
| BarrierLawful.EventAndSemaphoreAgree | common/include/common-ipc-event.hpp:263-277 | in every run without crashes or stopped threads, whose rounds signal distinct sandboxes, a counting semaphore in place of the resettable event gives the same rounds and positions |
| BarrierProgress.SomeoneGoesOn | common/include/common-signaling.hpp:106-135 | without crashes, until the client has its buffers back, some thread of the round can take a step |
| BarrierProgress.NextTakesOne | common/include/common-signaling.hpp:98-135 | every step of a round's threads brings it exactly one step nearer to its end |
| BarrierProgress.RoundEnds | common/include/common-signaling.hpp:98-135 | a round under way ends after a number of steps that does not depend on the schedule, and not before |
| BarrierProgress.EveryRoundEnds | common/include/common-signaling.hpp:98-135 | whatever rounds, starts and stops came before, every round of n > 0 distinct sandboxes whose threads run ends with done after exactly 4n + 6 steps of its threads, in any order; until then one of them can always take a step, so no wait lasts for ever |
| BarrierProgress.StoppedTargetBlocks | sbox/src/audio.hpp:103-111 | with either kind of event, a round that signals a sandbox whose thread has been stopped does not end, whatever the others do, crashes included, as long as the client does not unblock itself |
| BarrierProgress.RoundEndsIffTargetsRun | client/src/client.cpp:506-516 | a round of distinct sandboxes ends in every schedule if and only if none of their threads has stopped |
| BarrierFailures.UnblockEndsRound | client/src/client.cpp:394-398 | once the client unblocks itself in a round, from every reachable state, whoever has crashed or stopped and whatever else happens: it can always go on and has its buffers back after exactly its own remaining steps; before a first not_responding, it is told not_responding if and only if some signal of the round is unanswered |
| BarrierFailures.UnblockWakesClient | common/include/common-signaling.hpp:80-114 | a client that waits in a reachable state wakes, and the round ends as not_responding if and only if the counter is above zero |
| BarrierFailures.BlockedRoundIsGivenUp | common/include/common-signaling.hpp:106-114 | a round in which a sandbox with a signal to answer has crashed or stopped ends as not_responding once the client unblocks itself |
| BarrierFailures.DeathIsFinal | common/include/common-signaling.hpp:116-127 | a crashed or stopped sandbox takes no further step in any run, and its end changes nothing of the others or the client |
| BarrierFailures.StartedSandboxServes | common/include/common-signaling.hpp:98-135 | a new sandbox waits until it is signalled; then it works and answers, and a round for it ends as done |
| BarrierFailures.SubtractWraps | common/include/common-signaling.hpp:129-135 | a late fetch_sub at zero wraps to 2^32 - 1; only one that finds 1 leads to all_sandboxes_done |
| BarrierUse.ClientWaitsIffOnlyFirstActive | client/src/client.cpp:188-206 | as written, whether inactive sandboxes wait or are absent: every round of every run ends with all active sandboxes finished if and only if none but the first of the group is active |
| BarrierUse.OnlyFirstWorksRun | client/src/client.cpp:189-195 | early done: a run in which the first sandbox, if it waits, serves all the signals alone and done is returned |
| BarrierUse.MergedSignalsHang | client/src/client.cpp:189-202 | hang: two or more signals sent before the first sandbox wakes are one to it; it answers one, and the client waits with the counter above zero and nobody left to take a step |
| BarrierUse.FirstAbsentHangs | client/src/client.cpp:189-202 | hang, with either kind of event: if the first sandbox is absent no round ends in any run, and the client comes to wait with nobody left to take a step |
| BarrierUse.RoundsEndIffOneSignal | client/src/client.cpp:188-202 | as written, every round of every run ends if and only if no active sandbox is counted, or one is and the first of the group waits |
| BarrierUse.BuffersSeparateIff | client/src/client.cpp:164-202 | in the client's rounds as written, with either kind of event, client and sandboxes never use the buffers at once if and only if the group is active, or no active sandbox is counted, or the first of the group is absent |
| BarrierSemaphore.NextKeepsOwed | common/include/common-ipc-event.hpp:263-277 | with semaphores, what a running sandbox has answered and may still answer is exactly what it has been signalled |
| BarrierSemaphore.EverySemaphoreRoundEnds | common/include/common-signaling.hpp:98-135 | with semaphores, every round of n > 0 signals, several of them to one sandbox or not, whose targets run ends with done and all signals answered after exactly 4n + 6 steps, in any order; until then a thread of it can take a step |
| BarrierSemaphore.SemaphoreRoundEndsIffTargetsRun | common/include/common-ipc-event.hpp:263-277 | with semaphores, a round ends in every schedule if and only if no thread of its targets has stopped |
| BarrierSemaphore.SemaphoreRoundsEndIff | client/src/client.cpp:188-202 | as written, but with semaphores, every round of every run ends if and only if no active sandbox is counted or the first of the group waits |
| Lifetimes.CountActive | client/src/client.cpp:151-161 | the loop counts the launched, confirmed and running sandboxes of the group |
| Lifetimes.EraseIsAfter | client/src/client.cpp:1465-1482 | one erase, its cascade upwards included, leaves exactly what the one-expression specification says, and throws exactly for an id that does not exist |
| Lifetimes.EraseDeviceIsAfter | client/src/client.cpp:1453-1463 | the last device of a marked sandbox takes it along, and its group if that was waiting |
| Lifetimes.EraseSandboxIsAfter | client/include/scuff/client.hpp:24-25 | a sandbox with devices is marked, one without goes at once |
| Lifetimes.EraseGroupIsAfter | client/include/scuff/client.hpp:26-27 | a group with sandboxes is marked, one without goes at once |
| Lifetimes.ActuallyEraseSandboxIsAfter | client/src/client.cpp:1441-1451 | removing a sandbox recounts its group and takes a waiting group along |
| Lifetimes.AfterIsValid | client/src/data.hpp:211-227 | deletion keeps the links in both directions and leaves nothing marked and empty |
| Lifetimes.AfterTwice | client/src/client.cpp:1408-1482 | asking for one set and then for another is asking for both at once |
| Lifetimes.EraseAllIsAfter | client/src/client.cpp:1408-1482 | a sequence of erases that goes through depends only on the set of ids |
| Lifetimes.EraseAllSucceeds | client/src/client.cpp:1465-1482 | erasing distinct existing unmarked things in any order never throws |
| Lifetimes.DeletionOrderDoesNotMatter | client/include/scuff/client.hpp:20-27 | any two orders of deleting the same things give the same model |
| Lifetimes.ConnsValidIffUntouched | client/src/client.cpp:1453-1463 | connections between sandboxes stay valid if and only if none of a surviving group touches a deleted device |
| LifetimeRuns.AddSandboxIsValid | client/src/client.cpp:1363-1406 | creating a sandbox, or failing to, keeps the model well formed |
| LifetimeRuns.RewireIsValid | client/src/client.cpp:530-558 | connecting devices of different sandboxes, or being refused, keeps the model well formed |
| LifetimeRuns.FlagsKeepValid | client/src/client.cpp:217-226 | confirming activation and losing a process keep the model well formed |
| ModelUpdates.ConfirmCounts | client/src/client.cpp:217-226 | confirming activation sets the flag of that sandbox and nothing else, and its group counts exactly its launched, confirmed and running sandboxes, this one included |
| ModelUpdates.StopUncounts | client/src/client.cpp:376-393 | a launched process found stopped clears the flag of its sandbox, its group counts the others that are launched, confirmed and running, and nothing else changes; for a running process nothing does |
| ModelUpdates.RewireChangesOne | client/src/client.cpp:530-558 | connecting adds, and disconnecting removes, exactly that connection in the one group that has both devices in different sandboxes; without such a group nothing changes |
| ModelUpdates.CreateGroupAdds | client/src/client.cpp:1076-1090 | a new group is empty, unconnected, inactive and unmarked, and everything else stays |
| ModelUpdates.CreateSandboxAdds | client/src/client.cpp:1383-1406 | a new sandbox is launched, unconfirmed, unmarked and without devices, belongs to its group and is not counted yet; without the group or a running process there is none |
| ModelUpdates.CreateDeviceAdds | client/src/client.cpp:583-599 | a new device belongs to its sandbox, and everything else stays |
| ModelUpdates.EraseLeavesAfter | client/src/client.cpp:1465-1482 | as an update, erasing leaves what the specification says, or everything when there is no such thing |
| ModelUpdates.ActivatedIsCounted | client/src/client.cpp:151-161 | a sandbox that is created, activated and running adds one to the count of its group |
| LifetimeRuns.ReachableModelsAreValid | client/src/client.cpp:376-393 | every model reachable by create, erase, confirm, crash, connect and disconnect links groups, sandboxes and devices both ways, has nothing marked and empty, and counts between 0 and all sandboxes active |
| LifetimeRuns.DanglingIsReachable | client/src/client.cpp:121-125 | a run after which a group's connection names a deleted device |
| ActiveCounts.ActiveCountIsExact | client/src/client.cpp:151-161 | in runs in which no process comes back, a group counts at least its active and at most its launched and confirmed sandboxes, and exactly those once every stopped process has been noticed |
| Handles.UnrefKeepsCounts | client/src/client.cpp:1512-1531 | letting go of the last handle erases, of another one only counts down; counts stay exact |
| Handles.HandlesAfter | client/include/scuff/managed.hpp:15-54 | what every live handle points at after each constructor, assignment and destructor |
| Handles.ConstructIsExactIffInTime | client/include/scuff/managed.hpp:18-22 | after a new handle all counts are exact if and only if its object exists and is not marked for deletion |
| Handles.HandlesAreExact | client/include/scuff/managed.hpp:15-67 | in every run of construct, copy, move, assign and destroy, every state is exact (no ref or unref has missed its id, each ref_count is the number of live handles, erase was called once for exactly the objects whose last handle went) if and only if no handle is made for an object that is gone or marked at that moment |
| LateHandles.DroppingAllHandlesEmpties | client/include/scuff/managed.hpp:23-25 | once every object has had handles and all have let go, in any order, nothing is left, even if some were made too late |
| LateHandles.LateHandleFaults | client/src/client.cpp:1512-1531 | a handle made too late, whatever is done next: once all others have let go its object is gone, and letting go of it throws |
| LateHandles.LateRunFaults | client/src/client.cpp:1519-1531 | such a run, from nothing to the throw |
| HandlesImpl.Data.Ref | client/src/client.cpp:1500-1510 | one count goes up and no other changes, nor anything else; an id that does not exist throws and changes nothing |
| HandlesImpl.Data.Unref | client/src/client.cpp:1512-1531 | in a well-formed model, one count goes down and no other changes; at zero the object is asked to go, and what goes leaves the counts; an id that does not exist throws and changes nothing |
| HandlesImpl.Perform | client/include/scuff/managed.hpp:15-54 | every constructor, assignment and destructor takes any set of different objects through the step of the handle machine: the objects keep their identity, also when source and target are one, and all others are unchanged |
| HandlesImpl.PerformAll | client/include/scuff/managed.hpp:15-67 | after any sequence of them, if none came too late, nothing has thrown and each ref_count is the number of objects that hold the id |
| HandlesImpl.RefCounted.Copied | client/include/scuff/managed.hpp:26-29 | both handles hold the id and it is counted once more |
| HandlesImpl.RefCounted.Moved | client/include/scuff/managed.hpp:30-33 | the id passes to the new handle and no count changes |
| HandlesImpl.RefCounted.CopyAssign | client/include/scuff/managed.hpp:34-41 | the old id is let go before the new one is counted, and self-assignment changes nothing |
| HandlesImpl.RefCounted.MoveAssign | client/include/scuff/managed.hpp:42-49 | the old id is let go, the new one passes over uncounted, and self-assignment changes nothing |
| HandlesImpl.RefCounted.Destroy | client/include/scuff/managed.hpp:23-25 | the id is let go |
| Order.IsAConnectedToInputOfB | sbox/src/op.hpp:11-19 | true if and only if some output of b leads to a |
| Order.FindInsertionIndex | sbox/src/op.hpp:21-33 | the first position of a device that feeds the new one, or the end |
| Order.MakeDeviceProcessingOrder | sbox/src/op.hpp:40-52 | the loops produce the specified order |
| Order.OrderIsPermutation | sbox/src/op.hpp:40-52 | the order holds every device of the table as often as the table does |
| Order.ConsumerBeforeEarlierProducer | sbox/src/op.hpp:21-33 | a connection from a device iterated earlier to one iterated later puts the consumer first |
| Order.TopologicalIterationIsReversed | sbox/src/op.hpp:40-52 | topological iteration gives a full reverse topological order |
| Order.UnfedProducerComesLater | sbox/src/op.hpp:21-52 | in every iteration order, a device that nothing feeds comes after everything it feeds |
| IterationOrders.ProducerFirstIff | sbox/src/op.hpp:21-52 | a producer can come before its consumer in some iteration order of the table if and only if somewhere up the line from the producer (what feeds it, what feeds that, and so on) is the consumer itself or a device that does not feed the consumer |
| Order.ProducersFirstIffUnwired | README.md:85 | the documented order, producers first, comes out if and only if no two devices of the sandbox are connected |
| Rewiring.App.DeviceConnect | sbox/src/op.hpp:108-125 | publishes the specified model, or throws and publishes nothing |
| Rewiring.App.DeviceDisconnect | sbox/src/op.hpp:127-148 | removes the first matching connection, or throws and publishes nothing |
| Rewiring.App.RebuildOrder | sbox/src/op.hpp:154-157 | publishes the order rebuilt from the devices |
| Rewiring.ConnectAppends | sbox/src/op.hpp:108-125 | connecting fails exactly when the device to take the input is missing, or else the one to give the output; if neither is, the connection between those two ports becomes the last of its device and nothing else changes |
| Rewiring.DisconnectRemovesFirst | sbox/src/op.hpp:127-148 | disconnecting fails exactly when a device or the connection is missing; if not, the first connection between those two ports is removed, the others keep their order, and nothing else changes |
| Rewiring.CreateAdds | sbox/src/op.hpp:150-157 | a new device is in the table without connections, and in the order once that is rebuilt |
| Rewiring.RunsKeepOrderAndEndpoints | sbox/src/op.hpp:108-157 | in every published model of every run of create, connect and disconnect, all endpoints exist and the processing order names existing devices, each once; and all of them whenever the last update rebuilt it, wherever insertion puts the devices in the iteration |
| Rewiring.SameFeedsSameOrder | sbox/src/op.hpp:40-52 | the order depends only on the ids and on who feeds whom, not on the order of connections |
| Rewiring.DisconnectUndoesConnect | sbox/src/op.hpp:108-148 | a connect and the matching disconnect restore every device's multiset of connections and exactly the same processing order |
| Patching.ConnectedPortsCarry | sbox/src/op.hpp:108-125 | once two ports of devices of a sandbox are connected, and as no other device leads to that input, every pass leaves in the one input port what is in the one output port |
| Patching.DisconnectedPortIsKept | sbox/src/op.hpp:127-148 | once the only connection to an input port is removed, no pass touches it |
| Patching.RebuiltIsWiredInside | sbox/src/op.hpp:108-157 | in every run of create, connect and disconnect, whenever the order has just been rebuilt, it has each device once and connections stay inside the sandbox, which is what `Interleaving` asks for |
| CrossPatching.CrossConnectedPortsCarry | client/src/client.cpp:530-558 | once two ports of devices in different sandboxes are connected, and as nothing else leads to that input, the copies after a round bring there what is in the one output port |
| CrossPatching.CrossDisconnectedPortIsKept | client/src/client.cpp:121-132 | once the only connection to an input port is removed, the copies do not touch it |
| AudioPass.Sandbox.CopyDataFromConnectedOutputs | sbox/src/audio.hpp:10-22 | performs the specified copies; every input port then holds the output named by the last connection that names the port, or what it held if none does |
| AudioPass.CopyReaches | sbox/src/audio.hpp:10-22 | the last connection that names an input port brings there the output port that it names |
| AudioPass.CopyAvoids | sbox/src/audio.hpp:10-22 | an input port that no connection names keeps what it held |
| AudioPass.Sandbox.DoProcessing | sbox/src/audio.hpp:37-62 | the device loop performs the specified pass |
| AudioPass.UnwiredPortKeepsInput | README.md:93 | an input port with no wire keeps what the client wrote through any part of a pass |
| AudioPass.DeviceSees | sbox/src/audio.hpp:37-62 | a device sees its producer's output of this pass if the producer comes earlier in the order, and what the port held before otherwise, self-loops included |
| AudioPass.DeviceSeesPreviousPass | README.md:97 | over two passes, a device whose producer does not come earlier sees the producer's output of the previous pass |
| AudioPass.PassLeavesOutput | sbox/src/audio.hpp:10-22 | a pass leaves every input port to which one device leads with the output named by the last of its connections to it |
| AudioPass.LastProducerDecides | sbox/src/audio.hpp:37-62 | of several devices that lead to an input port, the one processed last decides what a pass leaves there |
| AudioPass.OutputsOf | sbox/src/audio.hpp:37-51 | at the end of a pass a device's outputs are what it made of the inputs it found |
| Latency.ProcessCrossConnections | client/src/client.cpp:121-132 | the loop performs the specified copies in order |
| Latency.CrossCopyReaches | client/src/client.cpp:121-132 | after the loop an input holds the output of the last connection that leads to it |
| Latency.ScheduleKeepsOrder | sbox/src/audio.hpp:53-62 | however sandboxes interleave, two devices of one sandbox keep their order |
| Latency.LinkWithoutDelay | sbox/src/audio.hpp:53-62 | a wire inside a sandbox whose producer is processed first passes the signal on in the same round |
| Latency.RoundLeavesOutput | client/src/client.cpp:1590-1601 | after a round, copies included, the far end of every link holds what the near end put out in it |
| Interleaving.SandboxSeesItsOrder | sbox/src/audio.hpp:53-62 | for any devices, if connections inside sandboxes stay inside them: after any interleaving of a round, the ports of a sandbox hold what its own order alone leaves in them |
| Interleaving.ScheduleDoesNotMatter | sbox/src/audio.hpp:53-62 | under the same condition, any two interleavings of the sandboxes' orders leave exactly the same buffers |
| Latency.ChainLatency | README.md:72 | in a chain of pass-through devices over any number of sandboxes, what comes out in round t was written L rounds earlier, L counting the links between sandboxes and those inside whose consumer comes first, however the sandboxes interleave in each round |
| Latency.UnfedChainAlwaysDelays | README.md:82 | a chain in one sandbox whose first device nothing feeds has no delay if and only if it has no links, in every iteration order of the table, where the documentation describes none for any chain |
| Latency.OneSandboxChainDelaysEveryLink | README.md:82 | the worst case: iterated in signal order, such a chain costs one round per link |
| Rack.RackIsSession | README.md:72 | devices in series, one to a sandbox, joined by connections between sandboxes, meet the preconditions of the latency theorem in every round order |
| Rack.OneRoundPerSandbox | README.md:72 | device k of such a rack of any length puts out what the client wrote k rounds before: one buffer of latency between each sandbox and the next |
| OneSandboxRack.NeverInOneRound | README.md:77 | the same rack in one sandbox, wherever iteration puts its devices: no device but the first puts out in a round what was written in it, and each puts out what was written as many rounds before as the links delay it |
| OneSandboxRack.AsSlowAsSandboxes | README.md:82 | if iteration yields the devices in signal order, device k puts out what was written k rounds before, as if each were in a sandbox of its own |
| AudioRounds.ClientTouchesAlone | client/src/client.cpp:1590-1601 | in every run of client and sandboxes over the barrier, the client writes, reads and copies only while every sandbox sleeps |
| RoundHistory.PlayedAreRounds | sbox/src/audio.hpp:53-62 | the rounds of such a run, however its steps interleave, are rounds of whole sandboxes, each going through its order |
| AudioCalls.PlayedAreCalls | client/src/client.cpp:1590-1601 | the rounds that a run has played are its calls: their inputs are the blocks written, in order, and their ends the buffers read |
| AudioCalls.RunsHaveLatency | client/src/client.cpp:1590-1601 | in every run, however the steps of client and sandboxes interleave, what the client reads at the n-th device of a chain in its t-th call is what it wrote as many calls before as the links delay it |
| AudioCalls.EveryCallCanBePlayed | client/src/client.cpp:1590-1601 | for every sequence of calls there is a run in which the client makes them all and reads its outputs in each |
| RackCalls.RackRunsHaveLatency | README.md:72 | in every run of a rack of n sandboxes in series over the barrier, what the client reads at device k in its t-th call is what it wrote k calls before |
| AudioProgress.SomeoneGoesOn | client/src/client.cpp:1590-1601 | in every state of such a run in which the client is in the barrier, some thread has a step of the barrier to take or a device to process |
| AudioProgress.ClientReadsAfter | client/src/client.cpp:1590-1601 | in every round of every run the client can read its outputs after exactly the barrier's steps and one for every device of the group, in any order; until then somebody can always go on |
| SlotBuffers.SlotBuffer.constructor | common/include/common-slot-buffer.hpp:10-12 | 32 slots, of which only index 0 is free to be issued |
| SlotBuffers.SlotBuffer.AddCapacity | common/include/common-slot-buffer.hpp:30-38 | doubles the buffer, keeps what it held, and frees the new half with the lowest index at the back, to be issued first |
| SlotBuffers.SlotBuffer.Put | common/include/common-slot-buffer.hpp:13-21 | stores the value at the index it returns, which is the old capacity if nothing is free and the last freed index if something is; all other slots stay |
| SlotBuffers.SlotBuffer.Take | common/include/common-slot-buffer.hpp:22-27 | returns the value at the index and frees it |
| SlotBuffers.GrownIssuesUpward | common/include/common-slot-buffer.hpp:30-42 | a put that finds nothing free is given the old capacity, and those after it the numbers that follow, as long as nothing is taken back |
| SlotBuffers.PutsAlone | common/include/common-slot-buffer.hpp:10-21 | puts alone are given 0, 32, 33 and so on |
| SlotBuffers.LastTakenIsNext | common/include/common-slot-buffer.hpp:39-45 | the index taken back last is the next to be issued |
| SlotBuffers.TakeIsSoundIffOutstanding | common/include/common-slot-buffer.hpp:22-27 | taking an index keeps the free list sound if and only if that index is outstanding |
| SlotBuffers.TakenTwiceIssuedTwice | common/include/common-slot-buffer.hpp:43-45 | an index taken twice is issued twice, and the second value overwrites the first |
| SlotBuffers.EveryUsableSlotIsAccountedFor | common/include/common-slot-buffer.hpp:49-50 | free plus outstanding indices number capacity minus 31 |
| SlotBuffers.StrangeIffManyValues | common/include/common-slot-buffer.hpp:30-32 | when the buffer has to grow, the debug assertion on capacity holds if and only if fewer than 993 values are outstanding |
| SlotBuffers.RunsAreSound | common/include/common-slot-buffer.hpp:8-51 | in every run that takes only outstanding indices: outstanding and free indices are distinct, disjoint and in range, capacity is 32 times a power of two, and the slots hold the outstanding values |
| SlotBuffers.TakenIsWhatWasPut | common/include/common-slot-buffer.hpp:13-27 | every value taken is the one put in under that index by the last event on it |
| SlotBuffers.IssuedOnce | common/include/common-slot-buffer.hpp:39-42 | between two puts that return the same index, that index was taken |

## Modelling decisions

- `size_t` and `int64_t` are 8 little-endian bytes, doubles are 64-bit patterns. A trivial
  struct is its object representation, padding included, and an empty struct is one byte.
- A message can be sent when it serializes to fewer than 1,000,000 bytes, which
  common-message-send-rcv.hpp:62 asserts. `Channel.Inv` implies that assertion.
- A timed lock either is obtained or is not; which, is an input of every step and call.
- The iteration order of a hash table is an input: a table is the sequence that iteration
  yields, and a new device may land anywhere in it.
- Whether a process runs is an input of every update that asks.
- Ids come from one counter that only grows, so a created object is new.
- Atomics are sequentially consistent.

## Left out

- Plugin hosting, windows, process launch, the scanner and plugin metadata: foreign calls. Devices are arbitrary functions from input blocks to output blocks, or pass-through ones.
- Events of plugins and their CLAP field mapping: only their size on the wire is modelled.
- ChannelImpl.Sender.Send: states the effect of a call that no other step interrupts; interference during a call is covered by the machine in `Channel`, whose steps are the call's shared accesses.
- ChannelImpl.Receiver.Receive: the same, and a receiver is not used again after deserialize has thrown.
- CodecImpl.Deserialize: reading past the end of a span is undefined in the code and is an outcome of its own here.
- Latency.ChainLatency: a connection between sandboxes is copied as if both devices had finished being created (`has_remote`), and the devices of different sandboxes interleave one whole device at a time; `Interleaving.ScheduleDoesNotMatter` shows that which whole devices come first is of no consequence.
- Lifetimes.EraseIsAfter: an update is atomic and works on the current model. The poll thread re-inserts a captured copy of a sandbox (client/src/client.cpp:218-225, 378-393), and a stale copy would lose updates.
- Handles.HandlesAreExact: says nothing of what follows a throw. The machine then goes on as if the handle had been written; in the code an exception that leaves a destructor ends the process.
- AudioCalls.RunsHaveLatency: every round signals all sandboxes of the group, the group is active, so that zeroing leaves the buffers alone, no thread stops, and events and connections do not change between rounds.
- BarrierUse.RoundsEndIffOneSignal: is about the resettable event; a semaphore counts the signals that the event merges.
- Rewiring.RunsKeepOrderAndEndpoints: does not cover `device_erase`, whose loop (sbox/src/op.hpp:180-187) erases while it steps an iterator of the old vector.
- SlotBuffers.SlotBuffer.Take: takes an index inside the buffer, as the unchecked access demands.
- The Linux futex event: a wake that comes after the next wait began can end a round early, so the barrier theorems are not claimed for it.
- Rounds after a first `not_responding`, `restart` and recovery in the middle of a frame: neither the channel nor the barrier resynchronises.
- Starting a stopped audio thread again, whose event the stop may have left set; timeouts and heartbeats.
- Late creation in `duplicate_async`, whose sandbox may be gone by then.
- Weak memory ordering.
