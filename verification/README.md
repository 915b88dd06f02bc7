# DDS-Pipe core, modelled and verified in Dafny

DDS-Pipe forwards messages between DDS participants. Its core is a set of small concurrent or stateful
machines. Each is modelled here with the branches, constants and error paths of the code, and what it
promises is proved for every input and every run. Where threads meet, in a track, a bridge, the RPC bridge, the
discovery queue and the releases of a header-counted block, a run is any interleaving of their accesses and
critical sections. The other classes are described one call at a time, as their mutexes or their callers keep them.

| files | what they model |
|---|---|
| `TrackProtocol`, `TrackInvariant`, `TrackTheorems` | the lock-free hand-off between pushers, pool workers and a controller, one step per atomic access or critical section, the status word modulo 2^32 |
| `TrackLifetime` | the end of a track: what its destructor can leave behind in the pool and in the reader |
| `Track` | the methods of Track and InternalReader in place, each of their accesses recorded as the protocol step it is |
| `DiscoveryDatabase` | the double-buffered operation queue and the endpoint map |
| `PipeModel`, `PipeSync`, `PipeRuns`, `PipeHistory`, `DdsPipe`, `DdsPipeConfiguration` | discovery, activation and reload of topics: as functions on values, as whole runs and interleavings told from their operations, and as the class that edits its maps and bridges in place |
| `DdsBridge`, `RoutesConfiguration` | tracks edited as writers come and go, against the routes |
| `BridgeProtocol`, `BridgeTracks` | the tracks of one bridge enabled and disabled in turn under running workers, with the writers they share; and the track protocol simulated in it |
| `PayloadPools`, `PoolRefinement`, `PayloadFanOut` | the three payload pools over an explicit heap, their common specification, the mediator and the data destructor |
| `FastPoolReleases`, `FastPoolRuns` | concurrent releases of a header-counted block, one step per atomic access, and a pool of such blocks with its two counters |
| `RpcProtocol`, `RpcInvariant`, `RpcForwarding`, `RpcRegistries`, `RpcTheorems`, `RpcRefusals`, `ServiceRegistry` | request and reply forwarding with task flags, registry locks and bounded registries |
| `AllowedTopicList`, `TopicQoS` | filter reduction and QoS layering |
| `TopicsMonitor`, `MonitorSchedules`, `BaseReader` | monitoring accounts and the schedules that keep them, rate and downsampling filters |

Shape of the proofs: a machine is a `State` and a `Step`; an invariant is kept by every step; theorems are
about the state after any run. Classes are proved against functions on the value their fields stand for
(`View`), and the results are lemmas about those functions.

Results that turned out not to hold unconditionally are stated with the exact condition:

* A lost wake-up needs 2^31 callbacks between two stores to the status word; with one fewer it cannot
  happen (`NoLostWakeup`, `OneCallbackTooMany`, and as one equivalence `WakeUpIsKeptExactly`).
* A block of `FastPayloadPool` is freed exactly once if and only if, when its counter reaches zero, no other
  release of it stands between its decrement and its test. Two releases that both decrement before either tests
  free it twice. A release throws only once some block was freed twice, and by the time everything is given back
  one has thrown exactly if so. Releases that do not overlap are safe
  (`FreedOnceExactly`, `OverlappingReleasesFreeTwice`, `ReleasesWithoutOverlapFreeOnce`, `OverReleaseExactly`).
* Removing the last writer of a track destroys it while the pool keeps the slot of its task. With the reader at
  rest, nothing outlives the track exactly if no task of it is queued and, where it was disabled before, no worker
  is left; while messages come in, a callback always can (`NothingOutlivesExactly`, `CallbacksCanOutlive`).
* A track alone never writes to a disabled writer, but the tracks of a bridge share writers and are disabled one
  after the other: a message is dropped exactly if an earlier track of the bridge has turned the writer off. So
  a bridge is safe exactly if no two tracks lead to the same writer; with default routes, up to two participants
  (`WriteIsDroppedExactly`, `NothingIsDroppedExactly`, `DefaultRoutesDropFromThreeOn`).
* The writers of a bridge follow the active readers of its topic only while every operation meets a
  condition that can be read off the state before it (`RunStaysInSyncExactly`). What breaks it: adding a
  guid again after it went inactive (no callback is fired), adding a reader that is inactive to begin with,
  a change of topic, kind or discoverer in an update, erasing a reader that was never marked inactive, and a
  topic first seen while the pipe is disabled or the topic blocked, whose late bridge starts with the writer
  of the participant that saw it first.
* The pools differ on requests of size zero (`ZeroSizeTellsThemApart`), and the data destructor gives a
  reference back only for a positive length (`DestructorReleasesExactlyNonEmpty`).
* A registry entry just added is found unless the registry was full and every number in it is larger
  (`NewEntryIsFound`).
* A take in `RpcBridge::transmit_` never finds its reader empty, but its reader refuses it exactly while an
  enable under way has not reached that reader; the code then reads the empty data pointer before it tests the
  return code. Enabling a disabled bridge can lead there exactly if the task flag of the reader is still up from
  before the disable, or a callback that found the reader enabled then is still in flight. The flag alone does
  not tell (`TakeIsRefusedExactly`, `RefusalNeedsALeftoverExactly`, `CallbackOutlivesDisable`).
* A schedule of monitor operations keeps the accounts, whatever the amounts, exactly if every `consume` hands
  over the very notifications that are pending and no `clear_data` finds one (`ScheduleConservesExactly`).
* A reader keeps its maximum rate exactly if the rate exceeds one sample in 2^32 ns: a longer period is out of
  range of the `unsigned int` it is cast to (`RateIsKeptExactly`).

## Model

| member | source | states |
|---|---|---|
| `TrackTheorems.NoLostWakeup` | ddspipe_core/src/cpp/communication/dds/Track.cpp:182-276 | in every interleaving with fewer than 2^31 callbacks between two stores to the status: enabled, settled and data pending imply a callback in flight, a queued task, or a worker that takes again |
| `TrackTheorems.OneCallbackTooMany` | ddspipe_core/src/cpp/communication/dds/Track.cpp:189-192 | the bound 2^31 is tight: a run from the start with one callback more loses the wake-up, because the addition wraps back to transmitting_data |
| `TrackTheorems.WakeUpIsKeptExactly` | ddspipe_core/src/cpp/communication/dds/Track.cpp:182-276 | all runs with fewer than L callbacks between two stores keep the wake-up exactly if L is at most 2^31 |
| `TrackTheorems.DeliveredInOrderExactlyOnce` | ddspipe_core/src/cpp/communication/dds/Track.cpp:202-276 | in every interleaving, without a bound on the callbacks: what is taken followed by what waits is what was pushed, in order; each taken item was written exactly once to each writer the track had at the take, and no write met a disabled writer, across enable, disable, add_writer and remove_writer |
| `TrackTheorems.PushedGrows` | ddspipe_participants/src/cpp/reader/auxiliar/InternalReader.cpp:48-59 | the reader keeps exactly the messages of the pushers, in the order of the pushes |
| `TrackTheorems.SingleTask` | ddspipe_core/src/cpp/communication/dds/Track.cpp:189-198 | from no_more_data without a task, and until the next enable, at most one transmit task is outstanding and no_more_data means none |
| `TrackTheorems.WorkerTerminates` | ddspipe_core/src/cpp/communication/dds/Track.cpp:213-240 | once callbacks stop, the running worker makes at most \|queue\| + 2 takes and finitely many steps |
| `TrackTheorems.PoolRunIsBounded` | ddspipe_core/src/cpp/communication/dds/Track.cpp:213-275 | a run of the pool alone is exactly as long as a rank of the state drops, so it ends |
| `TrackTheorems.PoolNeverBlocks` | ddspipe_core/src/cpp/communication/dds/Track.cpp:202-211 | while a task is queued or running on a quiet track, some pool step can be taken |
| `TrackTheorems.PoolDrainsTheQueue` | ddspipe_core/src/cpp/communication/dds/Track.cpp:202-276 | with everyone else at rest, a pool run that cannot go on has taken all that was pushed and delivered it completely |
| `TrackTheorems.NoDeadlock` | ddspipe_core/src/cpp/communication/dds/Track.cpp:83-162 | in every run, whenever a thread is inside the protocol, a step of a thread inside it is possible: the four locks never deadlock, a worker that holds the reader's mutex and waits for the queue included |
| `TrackTheorems.RunKeepsInv` | ddspipe_core/src/cpp/communication/dds/Track.cpp:83-276 | the invariant (status pinned to the callbacks since the last store, wake-up, lifecycle, history) holds after every run with fewer than 2^31 callbacks between two stores, stale tasks and the wrap-around of fetch_sub on 0 included |
| `TrackTheorems.RunKeepsOrder` | ddspipe_core/src/cpp/communication/dds/Track.cpp:83-276 | its lifecycle and history parts hold after every run, however many callbacks |
| `TrackInvariant.WorkerKeepsStatus` | ddspipe_core/src/cpp/communication/dds/Track.cpp:217-227 | store and decrement keep the status word within one of twice the callbacks since the last store, also when enable has reset it under a stale worker and the decrement wraps |
| `TrackInvariant.WriteKeepsHistory` | ddspipe_core/src/cpp/communication/dds/Track.cpp:254-272 | one more write of the taken item goes to a writer not yet offered it, which is enabled |
| `TrackLifetime.NothingOutlivesExactly` | ddspipe_core/src/cpp/communication/dds/Track.cpp:66-81 | with the reader at rest, no run of the destructor leaves a task, a worker or a callback behind exactly if no task is queued and, on a disabled track, no worker is left |
| `TrackLifetime.CallbacksCanOutlive` | ddspipe_core/src/cpp/communication/dds/Track.cpp:66-81 | from every reachable state with nobody at the controls, a message that comes in meanwhile can still be in the callback when the track is gone |
| `TrackLifetime.NoMoreDataLeavesNothing` | ddspipe_core/src/cpp/communication/dds/Track.cpp:182-200 | until an enable resets it over an older task, the status no_more_data on an enabled track says that nothing is left behind |
| `Tracks.Track.Transmit` | ddspipe_core/src/cpp/communication/dds/Track.cpp:202-276 | run undisturbed, the loop is a run of the step system that empties the reader in order and leaves no_more_data; on a disabled track it takes nothing |
| `Tracks.Track.TransmitOne` | ddspipe_core/src/cpp/communication/dds/Track.cpp:213-275 | one round takes at most one item off the front of the queue and goes on only if it took one |
| `Tracks.Track.WriteToAll` | ddspipe_core/src/cpp/communication/dds/Track.cpp:254-272 | the writer loop is the write steps of the protocol, one for every writer of the track |
| `Tracks.Track.DataAvailable` | ddspipe_core/src/cpp/communication/dds/Track.cpp:182-200 | a task is emitted exactly when the track is enabled and the status was no_more_data |
| `Tracks.Track.SimulateDataReception` | ddspipe_participants/src/cpp/reader/auxiliar/InternalReader.cpp:48-59 | the message is stored even by a disabled reader, and announced |
| `Tracks.Track.Enable` | ddspipe_core/src/cpp/communication/dds/Track.cpp:83-111 | every writer ends enabled, and a task is emitted exactly if data was waiting |
| `Tracks.Track.Disable` | ddspipe_core/src/cpp/communication/dds/Track.cpp:113-139 | reader and all writers end disabled, pending data stays |
| `Tracks.Track.AddWriter` | ddspipe_core/src/cpp/communication/dds/Track.cpp:141-154 | the added writer is enabled if the track is |
| `Tracks.Track.RemoveWriter` | ddspipe_core/src/cpp/communication/dds/Track.cpp:156-162 | only that writer is gone, in two protocol steps |
| `Tracks.InternalReader.Enable` | ddspipe_participants/src/cpp/reader/auxiliar/InternalReader.cpp:38-46 | the callback is asked for exactly if the reader was disabled and data was stored meanwhile |
| `Tracks.InternalReader.Take` | ddspipe_participants/src/cpp/reader/auxiliar/InternalReader.cpp:61-79 | first in, first out; not enabled and empty are told apart and change nothing |
| `DiscoveryDatabases.DiscoveryDatabase.ProcessFront` | ddspipe_core/src/cpp/dynamic/DiscoveryDatabase.cpp:334-364 | processed, foreground and background always make up what was pushed, and the entities are the in-order fold of the processed operations, inconsistent ones changing nothing |
| `DiscoveryDatabases.DiscoveryDatabase.Swap` | ddspipe_core/src/cpp/dynamic/DiscoveryDatabase.cpp:336 | every swap happens with an empty foreground and loses and reorders nothing |
| `DiscoveryDatabases.DiscoveryDatabase.PushItemToQueue` | ddspipe_core/src/cpp/dynamic/DiscoveryDatabase.cpp:324-332 | the operation becomes the last one pushed; nothing else changes |
| `DiscoveryDatabases.DiscoveryDatabase.AddEndpoint` | ddspipe_core/src/cpp/dynamic/DiscoveryDatabase.cpp:105-148 | an active endpoint is refused, an inactive one silently replaced, a new one reported |
| `DiscoveryDatabases.DiscoveryDatabase.UpdateEndpoint` | ddspipe_core/src/cpp/dynamic/DiscoveryDatabase.cpp:150-182 | an unknown guid is refused, a known one replaced and reported |
| `DiscoveryDatabases.DiscoveryDatabase.EraseEndpoint` | ddspipe_core/src/cpp/dynamic/DiscoveryDatabase.cpp:184-210 | an unknown guid is refused, a known one removed and reported |
| `DiscoveryDatabases.DiscoveryDatabase.GetEndpoints` | ddspipe_core/src/cpp/dynamic/DiscoveryDatabase.cpp:247-266 | exactly the stored endpoints that satisfy the filter |
| `DiscoveryDatabases.KnownMeansAddedAndKept` | ddspipe_core/src/cpp/dynamic/DiscoveryDatabase.cpp:105-210 | after any operations, a guid is known exactly if it was added and not erased since |
| `DiscoveryDatabases.StoredIsTheLatest` | ddspipe_core/src/cpp/dynamic/DiscoveryDatabase.cpp:105-182 | what is stored is the latest endpoint given for its guid, but for additions over an active one |
| `DdsPipeConfigurations.IsValid` | ddspipe_core/src/cpp/configuration/DdsPipeConfiguration.cpp:29-52 | valid exactly if every route is, and remove-unused-entities comes with the reader trigger |
| `DdsPipeConfigurations.GetRoutesConfig` | ddspipe_core/src/cpp/configuration/DdsPipeConfiguration.cpp:54-67 | the routes of any topic of a valid configuration are valid |
| `PipeModel.CallbacksKeepActivation` | ddspipe_core/src/cpp/core/DdsPipe.cpp:278-437 | discover, update and remove keep: a known topic is active exactly when the pipe is enabled and allows it, every bridged topic is known, every active one bridged, and each bridge enabled like its topic |
| `PipeModel.EnableKeepsActivation` | ddspipe_core/src/cpp/core/DdsPipe.cpp:133-162 | enable keeps that invariant |
| `PipeModel.DisableKeepsActivation` | ddspipe_core/src/cpp/core/DdsPipe.cpp:164-183 | disable keeps that invariant |
| `PipeModel.ReloadKeepsActivation` | ddspipe_core/src/cpp/core/DdsPipe.cpp:194-237 | reloading the lists keeps that invariant, enabled or not |
| `PipeRuns.RunKeepsActivation` | ddspipe_core/src/cpp/core/DdsPipe.cpp:133-437 | so it holds at the end of any run of operations |
| `PipeHistory.ListsAreTheLatest` | ddspipe_core/src/cpp/core/DdsPipe.cpp:194-216 | after any run the lists in force are those last loaded, whether the pipe was enabled then or not, and the pipe is enabled as it last was |
| `PipeHistory.ActiveExactly` | ddspipe_core/src/cpp/core/DdsPipe.cpp:133-237 | after any run a known topic is active exactly if the pipe was last enabled and the lists last loaded allow it |
| `PipeHistory.KnownMeansDiscovered` | ddspipe_core/src/cpp/core/DdsPipe.cpp:278-437 | after any run the known topics are those of the start and those of which an endpoint of a kind that triggers was reported, with no other active one of its participant there |
| `PipeHistory.FirstDiscovererIsKept` | ddspipe_core/src/cpp/core/DdsPipe.cpp:413-437 | a topic keeps for ever the discoverer of its first discovery, however often it is discovered again |
| `PipeHistory.OldDiscovererIsKept` | ddspipe_core/src/cpp/core/DdsPipe.cpp:403-437 | so does a topic known from the start |
| `PipeHistory.BridgedMeansWasActive` | ddspipe_core/src/cpp/core/DdsPipe.cpp:529-550 | a topic has a bridge exactly if it had one at the start or has been active since |
| `PipeHistory.RunKeepsFull` | ddspipe_core/src/cpp/communication/dds/DdsBridge.cpp:100-148 | where unused entities are kept, every bridge has a writer for every destination after any run |
| `PipeHistory.RunLeavesServices` | ddspipe_core/src/cpp/core/DdsPipe.cpp:278-346 | no run makes the topic of a service known or changes its writers |
| `PipeSync.RelevantMeansEdge` | ddspipe_core/src/cpp/core/DdsPipe.cpp:371-401 | an endpoint is relevant exactly if it is the only active reader of its participant and topic, or is inactive and there is none |
| `PipeSync.WritersAfterCallback` | ddspipe_core/src/cpp/core/DdsPipe.cpp:278-437 | a callback adds or removes at most its own participant's writer, in its own topic's bridge, and exactly when it is such an edge |
| `PipeSync.AddKeepsSyncExactly` | ddspipe_core/src/cpp/dynamic/DiscoveryDatabase.cpp:105-148 | an addition keeps the writers of a topic equal to the participants with an active reader of it exactly if: a first reader comes active where the topic can have a bridge and inactive where not, and does not come back active over an inactive entry |
| `PipeSync.UpdateKeepsSyncExactly` | ddspipe_core/src/cpp/dynamic/DiscoveryDatabase.cpp:150-182 | an update does exactly if the last reader of a participant stays a reader of that topic and participant, and a first active reader finds a place for a bridge |
| `PipeSync.EraseKeepsSyncExactly` | ddspipe_core/src/cpp/core/DdsPipe.cpp:298-325 | an erasure does exactly if the last reader is erased as inactive, with its topic and participant |
| `PipeSync.EnableSyncsExactly` | ddspipe_core/src/cpp/core/DdsPipe.cpp:571-581 | after enable a bridge made late is in step exactly if the only participant with an active reader is the one that saw the topic first; all others are as before |
| `PipeSync.ReloadSyncsExactly` | ddspipe_core/src/cpp/core/DdsPipe.cpp:218-237 | the same for a reload that admits a topic |
| `PipeSync.DisableKeepsSync` | ddspipe_core/src/cpp/core/DdsPipe.cpp:583-590 | disable never changes who has a writer |
| `PipeRuns.StepKeepsSyncExactly` | ddspipe_core/src/cpp/core/DdsPipe.cpp:133-437 | one condition per operation, read off the state before it, decides whether it keeps a topic in step |
| `PipeRuns.RunStaysInSyncExactly` | ddspipe_core/src/cpp/core/DdsPipe.cpp:133-437 | a topic stays in step throughout a run exactly if every operation meets its condition in the state it finds |
| `PipeRuns.OrdinaryRunsStayInSync` | ddspipe_core/src/cpp/core/DdsPipe.cpp:278-437 | a topic allowed in an enabled pipe stays in step for ever if guids are added active and not re-added once inactive, updates change activity only and erasures are of inactive endpoints |
| `PipeRuns.UserMoveCommutes` | ddspipe_core/src/cpp/dynamic/DiscoveryDatabase.cpp:141-145 | an enable, disable or reload between a database update and its callback gives what it gives before both |
| `PipeRuns.InterleavingsAreSequential` | ddspipe_core/src/cpp/dynamic/DiscoveryDatabase.cpp:334-364 | every interleaving of the processing thread with users ends where a sequential run of the same operations, each side in its order, ends |
| `DdsPipes.DdsPipe.Create` | ddspipe_core/src/cpp/core/DdsPipe.cpp:32-87 | refused exactly for an invalid configuration; otherwise the builtin topics are known and the activation invariant holds |
| `DdsPipes.DdsPipe.InitBridges` | ddspipe_core/src/cpp/core/DdsPipe.cpp:403-411 | every builtin topic ends bridged, disabled, with a writer for every destination |
| `DdsPipes.DdsPipe.DiscoveredTopic` | ddspipe_core/src/cpp/core/DdsPipe.cpp:413-437 | editing the maps and bridge objects in place gives the value-level operation, and only the topic's own bridge changes |
| `DdsPipes.DdsPipe.IsRelevant` | ddspipe_core/src/cpp/core/DdsPipe.cpp:371-401 | counting the matching endpoints decides whether they are exactly the endpoint itself, or none |
| `DdsPipes.DdsPipe.Notify` | ddspipe_core/src/cpp/core/DdsPipe.cpp:257-346 | each database outcome runs the callback registered for it |
| `DdsPipes.DdsPipe.CreateNewBridge` | ddspipe_core/src/cpp/core/DdsPipe.cpp:485-518 | the topic gets a fresh bridge with the first writers its configuration asks for; no other bridge is touched |
| `DdsPipes.DdsPipe.ActivateTopic` | ddspipe_core/src/cpp/core/DdsPipe.cpp:529-550 | the topic's bridge is created or enabled, in place, and nothing else changes |
| `DdsPipes.DdsPipe.DeactivateTopic` | ddspipe_core/src/cpp/core/DdsPipe.cpp:552-569 | the topic's bridge is disabled if there is one, and none is created |
| `DdsPipes.DdsPipe.Enable` | ddspipe_core/src/cpp/core/DdsPipe.cpp:133-162 | the loop over the known topics, with the allow and block lists asked each time, activates exactly the allowed ones |
| `DdsPipes.DdsPipe.Disable` | ddspipe_core/src/cpp/core/DdsPipe.cpp:164-183 | every known topic ends inactive and no bridge is lost or made |
| `DdsPipes.DdsPipe.ReloadAllowedTopics` | ddspipe_core/src/cpp/core/DdsPipe.cpp:194-255 | afterwards the new lists are in force, enabled or not; equal lists change nothing, and in an enabled pipe new ones realign every known topic, in any order of the map |
| `DdsPipes.DdsPipe.ReloadConfiguration` | ddspipe_core/src/cpp/core/DdsPipe.cpp:114-131 | an invalid configuration is refused without effect; of a valid one only the reduced lists are taken over |
| `DdsPipes.DdsPipe.ProcessQueue` | ddspipe_core/src/cpp/dynamic/DiscoveryDatabase.cpp:334-364 | database and pipe end where the sequential run of the queued operations, callbacks included, ends |
| `DdsPipes.TracksFollowTheReaders` | ddspipe_core/src/cpp/communication/dds/DdsBridge.cpp:202-281 | for a topic in step, the track of participant i holds the writer of p exactly when i sends to p, by the topic's own routes if it has some, and p discovered an active reader |
| `DdsPipes.EnabledPipesStartInSync` | ddspipe_core/src/cpp/core/DdsPipe.cpp:133-162 | in a pipe created with an empty database and just enabled, every allowed topic that is not builtin is in step |
| `DdsPipes.CreatedPipesFollowTheReaders` | ddspipe_core/src/cpp/core/DdsPipe.cpp:32-437 | end to end: created, enabled, the topic allowed and ordinary operations processed since, the track of participant i sends to p exactly when i's route leads to p and p discovered an active reader |
| `DdsPipes.BridgesLeaveNobodyOut` | ddspipe_core/src/cpp/communication/dds/DdsBridge.cpp:100-148 | where unused entities are kept, after any operations since creation: an active topic is bridged, and each participant has an enabled track exactly along its route for the topic, or else to all participants, itself only if a repeater |
| `DdsPipes.ActiveAsLastLoaded` | ddspipe_core/src/cpp/core/DdsPipe.cpp:194-237 | of a pipe object: the lists in use are those last loaded, and a known topic is active exactly if they allow it and the pipe was last enabled |
| `DdsPipes.RealignOneMore` | ddspipe_core/src/cpp/core/DdsPipe.cpp:218-237 | visiting one more topic extends the realignment of those visited, whatever the order |
| `DdsBridges.DdsBridge.constructor` | ddspipe_core/src/cpp/communication/dds/DdsBridge.cpp:26-52 | a bridge starts with the discoverer's writer under remove-unused-entities, else with a writer for every destination, and its tracks are those due to them |
| `DdsBridges.DdsBridge.CreateAllTracks` | ddspipe_core/src/cpp/communication/dds/DdsBridge.cpp:100-148 | each participant ends with a track exactly along its route, or else to all participants, itself only if a repeater, and without a track where that is nobody |
| `DdsBridges.AllWritersLeaveNobodyOut` | ddspipe_core/src/cpp/communication/dds/DdsBridge.cpp:106-148 | the writers created are enough for that: none that a route asks for is missing |
| `DdsBridges.DdsBridge.CreateWriter` | ddspipe_core/src/cpp/communication/dds/DdsBridge.cpp:150-164 | afterwards every track is what its routes make of the outstanding writers, and a writer already there is kept |
| `DdsBridges.DdsBridge.RemoveWriter` | ddspipe_core/src/cpp/communication/dds/DdsBridge.cpp:166-188 | likewise after a removal; the tracks it destroys are exactly those whose only writer was removed |
| `DdsBridges.DdsBridge.AddWritersToTracks` | ddspipe_core/src/cpp/communication/dds/DdsBridge.cpp:202-281 | the nested loops extend or create exactly the tracks with a route to a new writer |
| `DdsBridges.DdsBridge.SelectWriters` | ddspipe_core/src/cpp/communication/dds/DdsBridge.cpp:209-237 | the new writers in the reader's route, or all but its own unless it is a repeater |
| `DdsBridges.DdsBridge.Enable` | ddspipe_core/src/cpp/communication/dds/DdsBridge.cpp:64-80 | bridge and all its tracks are enabled together |
| `DdsBridges.DdsBridge.Disable` | ddspipe_core/src/cpp/communication/dds/DdsBridge.cpp:82-98 | bridge and all its tracks are disabled together |
| `DdsBridges.DueAfterAddition` | ddspipe_core/src/cpp/communication/dds/DdsBridge.cpp:202-281 | what is due after an addition is what was due plus what is due of the new writers |
| `DdsBridges.OutstandingMeansNotRemoved` | ddspipe_core/src/cpp/communication/dds/DdsBridge.cpp:150-188 | over any sequence of creations and removals, the outstanding writers are those created and not since removed |
| `DdsBridges.TracksDependOnOutstandingWritersOnly` | ddspipe_core/src/cpp/communication/dds/DdsBridge.cpp:150-281 | confluence of a bridge object: track i exists exactly when the writer of one of its destinations was created and not since removed, and holds exactly those, whatever the order of its history |
| `DdsBridges.DueIsWhatIsOutstanding` | ddspipe_core/src/cpp/communication/dds/DdsBridge.cpp:150-281 | a writer is due in a track exactly if the reader sends to it and it was created and not since removed |
| `DdsBridges.OwnWriterOnlyForRepeaters` | ddspipe_core/src/cpp/configuration/RoutesConfiguration.cpp:60-80 | in a bridge object, whose routes are validated, only a repeater's track holds its own participant's writer |
| `BridgeProtocol.WriteIsDroppedExactly` | ddspipe_core/src/cpp/communication/dds/DdsBridge.cpp:82-98 | in every interleaving, a worker about to write meets a disabled writer exactly if the pass of disable has turned it off in an earlier track |
| `BridgeProtocol.DropNeedsASharedWriterExactly` | ddspipe_core/src/cpp/communication/dds/DdsBridge.cpp:202-281 | a run in which track j drops a message to w exists exactly if a track visited before j shares w with it |
| `BridgeProtocol.NothingIsDroppedExactly` | ddspipe_core/src/cpp/communication/dds/Track.cpp:113-139 | disable never cuts a delivery short exactly if no two tracks of the bridge lead to the same writer |
| `BridgeProtocol.DefaultRoutesDropFromThreeOn` | ddspipe_core/src/cpp/communication/dds/DdsBridge.cpp:226-237 | without routes and repeaters that is so exactly up to two participants |
| `BridgeProtocol.RunKeepsInv` | ddspipe_core/src/cpp/communication/dds/Track.cpp:83-139 | after every run: a writer is enabled exactly if a track has turned it on and none off since, and a worker past its check holds up the disable of its track |
| `BridgeTracks.TrackStepsAreBridgeSteps` | ddspipe_core/src/cpp/communication/dds/Track.cpp:83-276 | every step of the track protocol is a step of the bridge protocol for that track, or invisible to it |
| `BridgeTracks.MovesAreABridgeRun` | ddspipe_core/src/cpp/communication/dds/DdsBridge.cpp:64-98 | every interleaving of the track protocols of a bridge, enabled and disabled in turn, is a run of the bridge protocol |
| `BridgeTracks.DeliveryMeetsDisabledWriterExactly` | ddspipe_core/src/cpp/communication/dds/Track.cpp:254-272 | so the delivery under way in a track meets a disabled writer exactly if an earlier track has turned it off in this pass of disable |
| `RoutesConfiguration.IsValid` | ddspipe_core/src/cpp/configuration/RoutesConfiguration.cpp:41-97 | valid exactly if routes name existing participants and lead back to their source only for repeaters; warns exactly about the repeaters that are not their own destination |
| `PoolRefinement.OperationRefines` | ddspipe_core/src/cpp/efficiency/payload/FastPayloadPool.cpp:32-155 | on each of the three pools every documented use, with releases undisturbed, succeeds, never over-releases, shows each handle what a table without sharing says, and keeps each counter equal to the number of live handles |
| `PoolRefinement.RunRefines` | ddspipe_core/src/cpp/efficiency/payload/MapPayloadPool.cpp:44-140 | so does every sequence of operations |
| `PoolRefinement.PoolsAreIndistinguishable` | ddspipe_core/src/cpp/efficiency/payload/CopyPayloadPool.cpp:29-62 | a counted pool and the copying pool, with different addresses from malloc, show the same bytes, lengths and sizes and agree on is_clean after any operations |
| `PoolRefinement.CleanMeansNoHandle` | ddspipe_core/src/cpp/efficiency/payload/PayloadPool.cpp:114-136 | a pool is clean exactly when no handle is live |
| `PoolRefinement.ZeroSizeTellsThemApart` | ddspipe_core/src/cpp/efficiency/payload/CopyPayloadPool.cpp:29-37 | the condition is sharp: the pools answer a request alike exactly if its size is not zero |
| `PayloadPools.CopyPayloadPool.GetPayload` | ddspipe_core/src/cpp/efficiency/payload/CopyPayloadPool.cpp:29-37 | changes the heap as the copying pool's specification says and hands out the new block |
| `PayloadPools.MapPayloadPool.GetPayload` | ddspipe_core/src/cpp/efficiency/payload/MapPayloadPool.cpp:44-62 | likewise, with one reference in the map |
| `PayloadPools.MapPayloadPool.ReferencePayload` | ddspipe_core/src/cpp/efficiency/payload/MapPayloadPool.cpp:64-103 | a payload the map does not know is refused; a known one gets a reference and no copy |
| `PayloadPools.MapPayloadPool.ReleasePayload` | ddspipe_core/src/cpp/efficiency/payload/MapPayloadPool.cpp:105-140 | frees the block with the last reference, and refuses what the map does not know |
| `PayloadPools.FastPayloadPool.GetPayload` | ddspipe_core/src/cpp/efficiency/payload/FastPayloadPool.cpp:108-134 | a block with a header counter of one |
| `PayloadPools.FastPayloadPool.ReferencePayload` | ddspipe_core/src/cpp/efficiency/payload/FastPayloadPool.cpp:60-77 | one more in the header, and a handle to the same bytes |
| `PayloadPools.FastPayloadPool.ReleasePayload` | ddspipe_core/src/cpp/efficiency/payload/FastPayloadPool.cpp:81-155 | called undisturbed: one less in the header, and the block freed exactly at zero |
| `PayloadPools.FastPayloadPool.DecrementReference` | ddspipe_core/src/cpp/efficiency/payload/FastPayloadPool.cpp:84-90 | its first access: one less in the header, and nothing else |
| `PayloadPools.FastPayloadPool.FreeIfUnreferenced` | ddspipe_core/src/cpp/efficiency/payload/FastPayloadPool.cpp:92-105 | its second: the block is freed, and a release counted, exactly if the header is zero by now |
| `FastPoolReleases.FreedOnceExactly` | ddspipe_core/src/cpp/efficiency/payload/FastPayloadPool.cpp:81-106 | over every run that gives all payloads back, with references taken meanwhile: the block is freed once and not touched afterwards exactly if no other release stands between decrement and test when the counter reaches zero |
| `FastPoolReleases.AloneIsSafeThroughout` | ddspipe_core/src/cpp/efficiency/payload/FastPayloadPool.cpp:81-106 | under that condition it is not freed early or touched afterwards in a run that has not ended either |
| `FastPoolReleases.OverlappingReleasesFreeTwice` | ddspipe_core/src/cpp/efficiency/payload/FastPayloadPool.cpp:90-98 | a run of two threads in which both decrement before either tests frees the block twice, against the thread safety announced in FastPayloadPool.hpp:46 |
| `FastPoolReleases.ReleasesWithoutOverlapFreeOnce` | ddspipe_core/src/cpp/efficiency/payload/FastPayloadPool.cpp:81-106 | releases of a block that do not overlap free it once, in whatever order |
| `FastPoolRuns.OverReleaseExactly` | ddspipe_core/src/cpp/efficiency/payload/PayloadPool.cpp:122-136 | over every run of a pool of any number of blocks, a release throws only once a block was freed twice, and when all is given back one has thrown exactly if so |
| `FastPoolRuns.OrderlyPoolsAreClean` | ddspipe_core/src/cpp/efficiency/payload/PayloadPool.cpp:114-136 | if no block reaches zero with another release of it half done, no release throws, no freed block is touched and the pool ends clean |
| `FastPoolRuns.BlocksRunOnTheirOwn` | ddspipe_core/src/cpp/efficiency/payload/FastPayloadPool.cpp:81-134 | each block of the pool goes through a run of its own, from the reserve on |
| `FastPoolRuns.OverlappingReleasesThrow` | ddspipe_core/src/cpp/efficiency/payload/PayloadPool.cpp:127-136 | a run of two threads over one block in which a release throws |
| `FastPoolReleases.WholeReleaseIsFastRelease` | ddspipe_core/src/cpp/efficiency/payload/FastPayloadPool.cpp:81-106 | without disturbance the accesses of a release together do what the pool's specification says in one step |
| `FastPoolReleases.FanOutWithoutOverlap` | ddspipe_core/src/cpp/efficiency/payload/PayloadPoolMediator.cpp:36-95 | the fan-out over a header-counted pool, access by access, as long as writers and destructor release one after the other |
| `PayloadFanOut.PayloadPoolMediator.Write` | ddspipe_core/src/cpp/efficiency/payload/PayloadPoolMediator.cpp:36-81 | the change made for a write shares the block of the data, whatever size the writer asks for |
| `PayloadFanOut.ChangeIsReleasedOnce` | ddspipe_core/src/cpp/efficiency/payload/PayloadPool.cpp:91-112 | a cache change of the pool is released once and then given up: a second release is an inconsistency |
| `PayloadFanOut.DestructorReleasesExactlyNonEmpty` | ddspipe_core/src/cpp/types/data/RtpsPayloadData.cpp:29-38 | the data destructor gives back a live reference exactly if the length is positive |
| `PayloadFanOut.ReleaseInAnyOrder` | ddspipe_core/src/cpp/efficiency/payload/FastPayloadPool.cpp:81-106 | the handles of a block may be released in any order, one after the other: only the last release frees it |
| `PayloadFanOut.ShareWithMany` | ddspipe_core/src/cpp/efficiency/payload/FastPayloadPool.cpp:60-77 | any number of further handles reserve nothing and leave every other payload alone |
| `PayloadFanOut.FanOutReservesAndFreesOnce` | ddspipe_core/src/cpp/efficiency/payload/PayloadPoolMediator.cpp:36-95 | a message of positive length written to N writers reserves one block and frees it once, in whatever order the N releases and the destructor come, one after the other |
| `RpcTheorems.FlagCountsTasks` | ddspipe_core/src/cpp/communication/rpc/RpcBridge.cpp:234-298 | in every interleaving, disable and enable included, a reader's flag is the number of its transmit tasks queued or running: never two |
| `RpcTheorems.TakeNeverFindsItEmpty` | ddspipe_core/src/cpp/communication/rpc/RpcBridge.cpp:273-303 | the take after the unread-count check always has something to take |
| `RpcRefusals.TakeIsRefusedExactly` | ddspipe_core/src/cpp/communication/rpc/RpcBridge.cpp:296-303 | in every interleaving, a take is refused exactly while an enable under way has not reached its reader |
| `RpcRefusals.RefusalNeedsALeftoverExactly` | ddspipe_core/src/cpp/communication/rpc/RpcBridge.cpp:133-156 | from any reachable disabled and idle state, enabling can lead to a refused take on a reader, before the next disable, exactly if its task flag is up or a callback of it is in flight |
| `RpcRefusals.NoLeftoverNoRefusalExactly` | ddspipe_core/src/cpp/communication/rpc/RpcBridge.cpp:133-156 | so enabling is safe for all readers exactly if no task flag is up and no callback in flight |
| `RpcRefusals.FlagOutlivesDisable` | ddspipe_core/src/cpp/communication/rpc/RpcBridge.cpp:160-194 | flags that outlive a disable are reached: it leaves queued tasks as they are |
| `RpcRefusals.CallbackOutlivesDisable` | ddspipe_participants/src/cpp/reader/rtps/CommonReader.cpp:383-400 | so are callbacks that do, with no flag up, no task queued and no worker: the listener reads the reader's flag and then the bridge's, and disable waits for neither |
| `RpcTheorems.UnreadNeverWaits` | ddspipe_core/src/cpp/communication/rpc/RpcBridge.cpp:234-260 | in an enabled, settled bridge a reader with unread data has a callback in flight, or a task queued or running |
| `RpcTheorems.NothingHappensWhileDisabled` | ddspipe_core/src/cpp/communication/rpc/RpcBridge.cpp:160-194 | after disable has waited, and until the next enable, workers do nothing but end |
| `RpcTheorems.RepliesAreCorrelated` | ddspipe_core/src/cpp/communication/rpc/RpcBridge.cpp:372-423 | every reply written went through the participant and identity recorded when its request was forwarded, and no request of a proxy client is answered twice |
| `RpcTheorems.RepliesAnswerArrivedRequests` | ddspipe_core/src/cpp/communication/rpc/RpcBridge.cpp:314-367 | end to end: a request with exactly that identity had arrived at exactly that participant |
| `RpcForwarding.RequestsGoElsewhere` | ddspipe_core/src/cpp/communication/rpc/RpcBridge.cpp:320-341 | whatever is written through a participant is a well-formed request, where a server is, and was not received there unless it is a repeater |
| `RpcForwarding.EveryRequestIsOffered` | ddspipe_core/src/cpp/communication/rpc/RpcBridge.cpp:332-369 | a well-formed request that is taken is settled for every participant before its worker does anything else: written there, its write failed, or passed over for want of a server or as its own receiver without being a repeater |
| `RpcForwarding.EveryReplyIsPassedOn` | ddspipe_core/src/cpp/communication/rpc/RpcBridge.cpp:376-423 | a reply to this proxy client that is taken is written to whom its request was registered for, unless the write fails or nobody is registered any more |
| `RpcForwarding.OpenMeansDiscovered` | ddspipe_core/src/cpp/communication/rpc/RpcBridge.cpp:196-208 | requests may go through a participant exactly if a server was discovered there |
| `RpcTheorems.ArrivedIsTakenOrWaiting` | ddspipe_core/src/cpp/communication/rpc/RpcBridge.cpp:273-303 | nothing is lost or reordered at a reader, enabled or not: what was taken and what waits is what arrived |
| `RpcTheorems.ReadersFollowTheBridge` | ddspipe_core/src/cpp/communication/rpc/RpcBridge.cpp:133-194 | once enable or disable is done, all readers of all participants are enabled, or none |
| `RpcTheorems.LookedUpAfterAdded` | ddspipe_core/src/cpp/communication/rpc/RpcBridge.cpp:343-398 | no reply is looked up before its entry was added; a missing entry was answered or evicted |
| `RpcRegistries.RegistriesFollowTheirOperations` | ddspipe_core/src/cpp/communication/rpc/RpcBridge.cpp:343-418 | each registry of a run is what the additions after its writes and the erasures after its replies, in order, make of an empty one |
| `RpcRegistries.MissingMeansAnsweredOrCrowdedOut` | ddspipe_core/src/cpp/communication/rpc/RpcBridge.cpp:385-404 | a reply whose request is not registered when it is looked up comes after another reply, or after 4999 newer requests were registered at once |
| `RpcInvariant.RunKeepsInv` | ddspipe_core/src/cpp/communication/rpc/RpcBridge.cpp:110-432 | flags, data, wake-up, locks, sequence numbers, registries, answers and records all hold after every run |
| `RpcInvariant.MoveKeepsLocks` | ddspipe_core/src/cpp/communication/rpc/RpcBridge.cpp:343-369 | the mutex of a registry is held by exactly the worker between its write and its add |
| `RpcInvariant.FoundIsUnanswered` | ddspipe_core/src/cpp/communication/rpc/RpcBridge.cpp:389-404 | what the only consumer of replies finds in the registry has not been answered |
| `RpcInvariant.StepKeepsWake` | ddspipe_core/src/cpp/communication/rpc/RpcBridge.cpp:276-293 | clearing the flag under the reader's mutex never strands data |
| `ServiceRegistries.ServiceRegistry.Add` | ddspipe_core/src/cpp/communication/rpc/ServiceRegistry.cpp:62-85 | a number already there is ignored; a full registry evicts the least number |
| `ServiceRegistries.ServiceRegistry.Get` | ddspipe_core/src/cpp/communication/rpc/ServiceRegistry.cpp:87-103 | the stored entry, or the entry without participant |
| `ServiceRegistries.ServiceRegistry.Erase` | ddspipe_core/src/cpp/communication/rpc/ServiceRegistry.cpp:105-114 | only that entry goes |
| `ServiceRegistries.NeverFull` | ddspipe_core/src/cpp/communication/rpc/ServiceRegistry.cpp:79-84 | over any additions and erasures the registry never holds more than 4999 entries |
| `ServiceRegistries.NewEntryIsFound` | ddspipe_core/src/cpp/communication/rpc/ServiceRegistry.cpp:62-85 | a new entry is found after its addition exactly if the registry was not full or held a smaller number |
| `ServiceRegistries.IncreasingEntriesAreFound` | ddspipe_core/src/cpp/communication/rpc/ServiceRegistry.cpp:62-85 | with increasing numbers the entry just added is always found |
| `ServiceRegistries.AdditionEvictsOnlyTheOldest` | ddspipe_core/src/cpp/communication/rpc/ServiceRegistry.cpp:79-84 | an addition drops an entry only behind 4999 newer ones, and changes no other |
| `ServiceRegistries.MissingOnlyIfCrowdedOut` | ddspipe_core/src/cpp/communication/rpc/ServiceRegistry.cpp:62-114 | over any history, an entry added and not erased is missing only if at some moment since 4999 newer ones were outstanding |
| `ServiceRegistries.FoundIsWhatWasAdded` | ddspipe_core/src/cpp/communication/rpc/ServiceRegistry.cpp:87-103 | what is found under a number was added under it |
| `AllowedTopics.GetTopicListWithoutRepetition` | ddspipe_core/src/cpp/dynamic/AllowedTopicList.cpp:121-162 | for a transitive containment: a subset of the list, no two members containing one another, every filter of the list contained in a kept one, empty only for an empty list |
| `AllowedTopics.CompareWithStored` | ddspipe_core/src/cpp/dynamic/AllowedTopicList.cpp:128-148 | the new filter is added exactly if no stored one contains it, and then the collected ones are all it contains, the early break included |
| `AllowedTopics.ReductionKeepsVerdict` | ddspipe_core/src/cpp/dynamic/AllowedTopicList.cpp:35-44 | with a containment sound for matching, the reduced lists give every topic the verdict of the configured ones |
| `AllowedTopics.WithoutContainmentAllAreKept` | ddspipe_core/src/cpp/types/topic/filter/WildcardDdsFilterTopic.cpp:25-35 | since no wildcard filter claims to contain another, all are kept |
| `AllowedTopics.AllowedTopicList.constructor` | ddspipe_core/src/cpp/dynamic/AllowedTopicList.cpp:35-44 | the object allows exactly the topics the configured lists allow |
| `AllowedTopics.AllowedTopicList.IsTopicAllowed` | ddspipe_core/src/cpp/dynamic/AllowedTopicList.cpp:69-104 | some allow filter accepts the topic or there is none, and no block filter does |
| `AllowedTopics.AllowedTopicList.IsServiceAllowed` | ddspipe_core/src/cpp/dynamic/AllowedTopicList.cpp:106-113 | both the request and the reply topic are allowed |
| `AllowedTopics.AllowedTopicList.Clear` | ddspipe_core/src/cpp/dynamic/AllowedTopicList.cpp:61-67 | afterwards every topic is allowed |
| `TopicQos.TopicQoS.SetQos` | ddspipe_core/src/cpp/types/dds/TopicQoS.cpp:77-125 | each of the nine fields is overwritten, at the level asked for, exactly if its own level is lower and the other is set |
| `TopicQos.CreateTopicForParticipant` | ddspipe_core/src/cpp/communication/dds/DdsBridge.cpp:283-309 | the in-place loop applies the applicable manual topics in order, then the participant's QoS |
| `TopicQos.FieldIsDecided` | ddspipe_core/src/cpp/types/dds/TopicQoS.cpp:77-125 | a field keeps its own hard value, else the first layer that sets it decides, else it is unchanged |
| `TopicQos.ManualTopicsThenParticipant` | ddspipe_core/src/cpp/communication/dds/DdsBridge.cpp:289-306 | in configuration terms: own if hard, else the first applicable manual topic that sets it, else the participant's, else own |
| `TopicQos.LastRiseDecides` | ddspipe_core/src/cpp/types/dds/TopicQoS.cpp:77-125 | over any sequence of set_qos at any levels, a field has value and level of the last layer that sets it above its own level and above all layers before, or is as it was |
| `TopicQos.ManualTopicsDecideOverDefaults` | ddspipe_core/src/cpp/types/dds/TopicQoS.cpp:30-40 | the defaults of an execution do not stand in the way: over them, as over the built-in ones, the first applicable manual topic decides, then the participant |
| `TopicQos.GetManualTopics` | ddspipe_core/src/cpp/configuration/DdsPipeConfiguration.cpp:69-84 | the loop selects the manual topics whose filter matches, in their order |
| `TopicQos.SelectionKeepsTheFirst` | ddspipe_core/src/cpp/configuration/DdsPipeConfiguration.cpp:69-84 | selecting first changes no decision: a field is decided by the first manual topic of the configuration that matches the topic, applies to the participant and sets the field |
| `TopicQos.LayersAreIdempotent` | ddspipe_core/src/cpp/communication/dds/DdsBridge.cpp:289-306 | applying the layers again changes no field |
| `TopicsMonitor.StepConservesExactly` | ddspipe_core/src/cpp/monitoring/producers/TopicsMonitorProducer.cpp:98-138 | an operation keeps the account of a participant on a topic exactly if it consumes an up-to-date snapshot and clears nothing pending |
| `TopicsMonitor.RunConserves` | ddspipe_core/src/cpp/monitoring/producers/TopicsMonitorProducer.cpp:98-214 | then over any run, what was notified is what was delivered plus what is pending |
| `TopicsMonitor.PeriodsConserve` | ddspipe_core/src/cpp/monitoring/producers/TopicsMonitorProducer.cpp:98-110 | with produce_and_consume alone this holds without a condition |
| `TopicsMonitor.TopicsAreThoseReported` | ddspipe_core/src/cpp/monitoring/producers/TopicsMonitorProducer.cpp:154-316 | a snapshot has exactly the topics brought up since the last clear on an enabled producer, by messages or by a mismatch |
| `MonitorSchedules.ScheduleConservesExactly` | ddspipe_core/src/cpp/monitoring/producers/TopicsMonitorProducer.cpp:98-138 | a schedule keeps the account of a participant on a topic balanced throughout, whatever is notified, exactly if each consume hands over the very notifications pending and no clear finds one |
| `MonitorSchedules.UndisturbedConsumesConserve` | ddspipe_core/src/cpp/monitoring/producers/TopicsMonitorProducer.cpp:112-138 | it is enough that between a produce and its consume nothing is notified to the cell, produced, consumed or cleared |
| `MonitorSchedules.BalancedMeansAllAccount` | ddspipe_core/src/cpp/monitoring/producers/TopicsMonitorProducer.cpp:98-214 | a run is balanced at every moment exactly if each of its operations is |
| `TopicsMonitor.TopicsMonitorProducer.AddMessages` | ddspipe_core/src/cpp/monitoring/producers/TopicsMonitorProducer.cpp:154-214 | registers topic and participant and raises just that count; nothing if disabled |
| `TopicsMonitor.TopicsMonitorProducer.ProduceNts` | ddspipe_core/src/cpp/monitoring/producers/TopicsMonitorProducer.cpp:283-316 | the snapshot holds the pending row of every registered topic; looking rows up creates empty ones |
| `TopicsMonitor.TopicsMonitorProducer.ResetData` | ddspipe_core/src/cpp/monitoring/producers/TopicsMonitorProducer.cpp:330-343 | every count of every row is zero and no row is lost |
| `TopicsMonitor.TopicsMonitorProducer.DoProduceAndConsume` | ddspipe_core/src/cpp/monitoring/producers/TopicsMonitorProducer.cpp:98-110 | consumers are handed the counts of the period |
| `TopicsMonitor.TopicsMonitorProducer.DoConsume` | ddspipe_core/src/cpp/monitoring/producers/TopicsMonitorProducer.cpp:126-138 | consumers are handed the last snapshot, up to date or not |
| `BaseReaders.Period` | ddspipe_participants/src/cpp/reader/auxiliar/BaseReader.cpp:48-51 | before the cast, the period is the largest whole number of nanoseconds that the rate fits in |
| `BaseReaders.PeriodFitsExactly` | ddspipe_participants/src/cpp/reader/auxiliar/BaseReader.cpp:48-51 | the cast to unsigned int keeps the period, and else stores a shorter one, exactly if the rate exceeds one sample in 2^32 ns |
| `BaseReaders.RateIsKeptExactly` | ddspipe_participants/src/cpp/reader/auxiliar/BaseReader.cpp:48-51 | over any timestamps accepted samples are a full period apart exactly if the rate fits, whatever the cast yields otherwise |
| `BaseReaders.BaseReader.ShouldAcceptSample` | ddspipe_participants/src/cpp/reader/auxiliar/BaseReader.cpp:133-163 | over all samples so far: accepted exactly if it comes at least a stored period after the last one that was, and the number of earlier ones that did is a multiple of the downsampling |
| `BaseReaders.NextIsAcceptedExactly` | ddspipe_participants/src/cpp/reader/auxiliar/BaseReader.cpp:138-163 | the same over any timestamps, from them and the accepted ones alone |
| `BaseReaders.UnlimitedAcceptsEveryDth` | ddspipe_participants/src/cpp/reader/auxiliar/BaseReader.cpp:138-157 | without a maximum rate the clock does not matter: exactly every d-th sample is accepted |
| `BaseReaders.AcceptedSamplesAreSpaced` | ddspipe_participants/src/cpp/reader/auxiliar/BaseReader.cpp:138-146 | over any timestamps, monotone or not, k + 1 accepted samples in a row span at least k stored periods |
| `BaseReaders.EveryDthPassingIsAccepted` | ddspipe_participants/src/cpp/reader/auxiliar/BaseReader.cpp:148-157 | a sample is accepted exactly if it passes the rate filter as number 0, d, 2d, ... of those that do |

## Left out

- Fast DDS participants, readers, writers, transports, TLS, XML, YAML and schema generation: readers are queues and writers are enabled flags and logs of writes.
- Thread pool, DBQueue, Fuzzy, Heritable and SerializedPayload_t are not part of this model: a pool is a bag of tasks, DBQueue two sequences that are swapped, Fuzzy a value with one of four ordered levels, Heritable the value it holds, a payload its four fields.
- Creation failures (InitializationException), `exit_` and `stop`, and the destructors of bridges, pipe and database; that of a track is in `TrackLifetime`.
- Logging, stream output, status flags and the one-line `is_valid` methods.
- Services at pipe level: the pipe ignores service topics here. `current_services_` is not refreshed while the pipe is disabled, so there is no invariant to state, and neither `DdsPipe::disable` nor the removal of a server disables what it might be expected to.
- The servers known to an RpcBridge: a registry may be opened at any time and enable may be called at any time, which covers every sequence of discovered and removed servers.
- RPC readers are taken as reliable, as their enable then calls back for unread data, and request writers as without a rate limit, under which `write` would report success without a new sequence number.
- What a refused take in `RpcBridge::transmit_` does to the process: it is modelled as the skip the code intends.
- Writers shared between the tracks of a bridge, in the protocol of a single track: there nobody else enables or disables its writers. `BridgeProtocol` has them shared, between tracks whose writers stay the same.
- What an access to freed memory does: `FastPoolReleases` records that it happened, and `TrackLifetime` ends where a task or callback of a destroyed track would go on.
- Memory orders weaker than sequential consistency; the atomics of the code use the default order.
- MAX_MESSAGES_TRANSMIT_LOOP_ of Track, which no code reads.
- Wildcard matching: `matches` and `contains` stay abstract. The order in which a std::set or std::map is visited is arbitrary here, which covers the real one.
- Topics are told apart by name and type as a pair; the code compares the two concatenated, so names chosen to collide are one topic for it. The QoS and the partition of a topic are not part of its identity.
- Endpoints discovered by no participant: the discoverer of an endpoint is taken to be one of the participants, as every participant of the repository sets it.
- `MonitoringTopics` carries derived values (reception rate, discovered types, mismatch flags) that the accounts do not need; its 32-bit counters are unbounded here.
- TopicsMonitorProducer reads `enabled_` before it takes its mutex; here an operation does both in one step.
- `add_release_payload_` increments its counter and compares the two in one access here; the code reads both atomics again.
- Reserve and release counters of the pools are unbounded; reference counters are below 2^32 by the number of handles.
- A zero-length message in `FanOutReservesAndFreesOnce`: the destructor does not release it, as `DestructorReleasesExactlyNonEmpty` states.
- Floating point in the rate filter: the rate is a real number.
