# Verified models of the telematics services

Dafny models of five parts of the telematics application framework, with
proofs about every input, run or reachable state. `dafny verify dfyconfig.toml`
checks everything.

**Data call service, profile manager.** `Profile.dfy` and `ProfileManager.dfy`
hold the profile objects and the manager as classes whose methods follow the
service's handlers statement by statement. `Qos.dfy` specifies the QoS flow table (one global
reference map mirrored by a list per profile, a cap of 64, eviction of the
oldest deleted flow, reuse on reactivation) and `Listeners.dfy` the reclaiming
by listener counts and the runs of all events; `QosFaults.dfy` and `ProfileFaults.dfy` show
runs that lead to the failures listed below. `DataClients.dfy` specifies who
requested a data call and what a disconnect stops, `Sessions.dfy` the session
notifications and what clients believe, `Async.dfy` the asynchronous start and stop requests under
interleaving of the main and the event thread, `Throughput.dfy` the throughput
lists and the references made from them.

**Audio service, streams and connectors.** `AudioGraph.dfy` defines the graph
that is stored on both sides in recycled hash maps, its operations and its
invariant. `AudioKeeps.dfy` proves that every operation keeps it,
`AudioLoops.dfy` what the service's loops compute, `AudioSessions.dfy` what
remains when a client session closes, `AudioSharing.dfy` when opening shares an
open stream, and `AudioRuns.dfy` what the graph means after any run of calls.
`AudioManager.dfy` is the class with the service's methods and loops.

**Audio service, recorder.** `Pump.dfy` is the buffer pump as a transition
system over read submissions, callbacks, buffer events and the finalising wait,
and `PumpFaults.dfy` what goes wrong in it and exactly when;
`Recorder.dfy` is the class whose methods take its steps, one instance for each
recording direction.

**Diagnostic backend.** `FileTransfer.dfy` encodes a RequestFileTransfer request
(section 14.6 of ISO 14229-1) in place into a byte array, and decodes the resume
position.

**DLT application id.** `AppId.dfy` is the hash and digit generator. `Arith.dfy`,
`Option.dfy` and `Sequences.dfy` are shared helpers.

Each class has a `View()`, its state as the specification sees it; a method's
contract says which function of the old view the new view is, and the lemmas are
about those functions. References, handles, hash maps and objects that an allocation returns
are parameters, required only not to be live. Where the service walks a
reference map or hash map, the model walks it in any order.

## Where the code does not do what it seems meant to

These are proved with the exact condition under which the code is right.

- Creating a profile whose platform-chosen id is taken loses the profile: the
  key update inserts without overwriting and then erases the old key.
  Naming a profile that already tracks QoS flows leaves them under the old key;
  it only has some if the platform sends a flow event for the undefined id
  (`CreateProfile`, `TakenIdLosesTheProfile`, `NamingLeavesAFlow`).
- Deleting a profile leaves its QoS flows behind (`DeleteProfile`,
  `DeletionLeavesAFlow`).
- Deleting a profile looks at the session state only, which an accepted
  asynchronous start has not changed yet: the waiting requests go with the object
  and are never answered (`RequestsAreConserved`, `DroppedWithItsProfile`).
- A platform profile update looks the profile up by slot where the map is keyed
  by phone (`UpdateProfile`, `UpdateReachesTheOtherPhone`).
- The 32-bit creation counter of flows wraps; then "oldest" is no longer oldest
  and a flow with the maximal number is never evicted (`EvictsFirstDeletedIff`,
  `WrapIsReached`, `MaximumIsPassedOver`).
- A synchronous start that times out resets the cached session state without a
  notice, so clients go on believing the old state (`BeliefIff`,
  `FixedPdpBeliefIff`, `TimeoutLeavesBehind`).
- The PDP type can change during a session. A family that is out of the PDP when
  its state changes is cached without a notice, and coming back into the PDP
  sends none either (`BeliefIff`, `PdpHidesAChange`).
- A call to start or stop asynchronously while the client has an entry of that
  kind goes on with the session but loses its callback, even when the earlier
  call has been answered and only its entry is still there
  (`RequestsAreConserved`, `LostInTheWindow`).
- A start while the session is coming up is answered "in progress", and so is
  every starter that still waits: an earlier one is called back with that and not
  made a requester, although its start brought the session up (`EnrolledIff`,
  `EarlierStarterLeftOut`).
- The recording guard only looks at the recording flag, which a size stop clears
  before the file is finalised, so a recording can be lost for good
  (`AllFinalisedIff`, `RestartLosesAFinalisation`).
- A read callback queues its buffer before it posts its event; the finalising
  thread can clear the stream in between (`NeverNullIff`, `NullIsReached`).
- The size test adds in 32 bits and can wrap (`BoundIff`, `LimitIsPassed`), and
  the header counts bytes that a short write did not store (`FinalisedFile`,
  `ShortWriteMisdescribes`).
- The close handler's match flag is never reset, so file streams of other
  clients can be stopped (`StopsOnlyOwnIff`, `StopsForeignFile`).
- Opening compares directions, but the hardware paths leave the direction unset
  (lines 1077-1082 and 1113-1117 of `tafAudioImpl.cpp`), so a hardware stream that
  is open may not be shared (`SharesIff`, `OpensTwice`).
- Application ids collide (`SameIdIff`, `IdsCollide`).

## Model

| member | source | states |
|---|---|---|
| Qos.Oldest | components/tafDataCallSvc/tafDcsProfileManagerImpl.cpp:2682-2706 | The eviction scan returns a listed, deleted flow, and no listed deleted flow numbered below the 32-bit maximum has a smaller number. |
| Qos.EvictsFirstDeleted | components/tafDataCallSvc/tafDcsProfileManagerImpl.cpp:2684-2706 | Before the creation counter wraps, the minimum-number scan picks exactly the first deleted entry of the list, and finds one whenever there is one. |
| Qos.EvictsFirstDeletedIff | components/tafDataCallSvc/tafDcsProfileManagerImpl.cpp:2684-2706 | For any numbering the scan picks the first deleted entry if and only if no later deleted entry has a smaller number and its own is below the 32-bit maximum. |
| Qos.WrapEvictsWrongFlow | components/tafDataCallSvc/tafDcsProfileManagerImpl.cpp:5338 | Two consistent tables beyond the wrap: in one the scan picks a newer flow than the first deleted one, in the other it passes over the only deleted flow, numbered with the 32-bit maximum. |
| QosFaults.WrapIsReached | components/tafDataCallSvc/tafDcsProfileManagerImpl.cpp:5338 | Such a state is reached: a run from the empty service ends with three deleted flows in creation order of which the scan picks the last. |
| QosFaults.MaximumIsPassedOver | components/tafDataCallSvc/tafDcsProfileManagerImpl.cpp:2684-2706 | And one whose only deleted flow, numbered with the 32-bit maximum, the scan does not find. |
| Qos.DropKeeps | components/tafDataCallSvc/tafDcsProfileManagerImpl.cpp:2712-2716 | Freeing one listed flow keeps map and lists one index and the list in creation order, one entry shorter. |
| Qos.AddKeeps | components/tafDataCallSvc/tafDcsProfileManagerImpl.cpp:5332-5347 | Creating a flow below the cap, under an id that has none, keeps the index, the uniqueness of flow ids and the creation order. |
| Qos.ReleaseKeeps | components/tafDataCallSvc/tafDcsProfileManagerImpl.cpp:2618-2649 | Freeing all flows of any set of profiles keeps the index. |
| Qos.MakeRoomKeeps | components/tafDataCallSvc/tafDcsProfileManagerImpl.cpp:5315-5330 | Making room evicts at most one flow, changes no other, and leaves the profile strictly below 64 flows. |
| Qos.OnEventKeeps | components/tafDataCallSvc/tafDcsProfileManagerImpl.cpp:5279-5382 | Every platform flow event keeps map and lists one index: each live flow is in exactly one list, its own profile's; lists are duplicate-free, at most 64 long and in creation order; a flow id names one flow. |
| Qos.OnlyItsFlowChanges | components/tafDataCallSvc/tafDcsProfileManagerImpl.cpp:5295-5377 | A flow event changes no flow but the one it names and, at the cap, the one it evicts; no list but its own profile's. |
| Qos.NoticeResolves | components/tafDataCallSvc/tafDcsProfileManagerImpl.cpp:5379-5381 | A reference sent to clients resolves, afterwards, to the flow the event named, in the state it reported and, for activations and modifications, with its mask; only events other than an activation about unknown flows carry none. |
| Qos.KnownFlowEffect | components/tafDataCallSvc/tafDcsProfileManagerImpl.cpp:5295-5381 | An event about a known flow gives it the event's state (an unknown one leaves it) and, if activated or modified, its mask, changes nothing else, and is announced under its reference unless an active flow is activated again. |
| Qos.UnknownFlowEffect | components/tafDataCallSvc/tafDcsProfileManagerImpl.cpp:5279-5381 | An event about an unknown profile does nothing; a modification, deletion or unknown state of an unknown flow changes nothing and is announced without a reference. |
| Qos.NewFlowEffect | components/tafDataCallSvc/tafDcsProfileManagerImpl.cpp:5313-5347 | A new flow is active with the event's mask under the next 32-bit number, listed last and announced; at 64 flows exactly the evicted one has gone from map and list; or nothing changes and nothing is announced. |
| Qos.DroppedIff | components/tafDataCallSvc/tafDcsProfileManagerImpl.cpp:5318-5329 | A new flow is dropped without any change if and only if the profile is full of flows that are not deleted or carry the maximal number, which before the counter wraps none does; otherwise its reference is live. |
| Listeners.SweepEffect | components/tafDataCallSvc/tafDcsProfileManagerImpl.cpp:4757-4777 | A sweep of handlers frees every flow of exactly the live profiles that thereby lost their last listener, and leaves every other profile's list and flows as they were. |
| Listeners.DropOneMore | components/tafDataCallSvc/tafDcsProfileManagerImpl.cpp:4761-4772 | Erasing handlers one after another while walking the map is the same as erasing them together. |
| Listeners.RekeyedKeepsIff | components/tafDataCallSvc/tafDcsProfileManagerImpl.cpp:4199-4228 | Moving a profile to a free key keeps the flow index if and only if the profile tracks no flows. |
| Listeners.DeleteProfileKeepsIff | components/tafDataCallSvc/tafDcsProfileManagerImpl.cpp:4107-4131 | Deleting a profile keeps the flow index if and only if it tracks no flows. |
| Listeners.NextKeeps | components/tafDataCallSvc/tafDcsProfileManagerImpl.cpp:4757-5382 | Flow events, call teardowns, listener adds and removes, client disconnects, and profile creation, naming and deletion (the last two without tracked flows) each keep the flow index and the one-to-one naming of profiles. |
| Listeners.RunKeeps | components/tafDataCallSvc/tafDcsProfileManagerImpl.cpp:4757-5382 | The same over every run of such events. |
| Listeners.StepStable | components/tafDataCallSvc/tafDcsProfileManagerImpl.cpp:3278-3304 | One event: a flow of a profile that still has a listener afterwards keeps its reference, key and id, unless the event evicts it. |
| Listeners.ReferencesAreStable | components/tafDataCallSvc/tafDcsProfileManagerImpl.cpp:5359-5377 | Over every run in which a profile keeps a listener, each of its flow references goes on resolving to the same flow id, and can vanish only by an eviction at the cap while that flow is deleted, even if freed reference values are reused. |
| Profile.TafDcsProfile.AddQosFlowRef | components/tafDataCallSvc/tafDcsProfileImpl.cpp:637-643 | Appends the reference unless it is listed. |
| Profile.TafDcsProfile.RemoveQosFlowRef | components/tafDataCallSvc/tafDcsProfileImpl.cpp:645-652 | Takes all occurrences out and keeps the order of the rest. |
| ProfileManager.ProfileManager.FindQosRef | components/tafDataCallSvc/tafDcsProfileManagerImpl.cpp:2592-2616 | The walk over the whole map in any order finds the flow of this profile with this id, and none only if there is none. |
| ProfileManager.ProfileManager.ReleaseAllQosFlowsForProfile | components/tafDataCallSvc/tafDcsProfileManagerImpl.cpp:2618-2649 | The loop over the copied list frees exactly the flows whose context names the profile and empties its list; an unknown profile changes nothing. |
| ProfileManager.ProfileManager.MarkAllQosFlowsDeletedForProfile | components/tafDataCallSvc/tafDcsProfileManagerImpl.cpp:2651-2672 | Exactly the flows whose context names the profile become deleted, and keep their other fields; none is freed. |
| ProfileManager.ProfileManager.SessionDown | components/tafDataCallSvc/tafDcsProfileManagerImpl.cpp:3545-3550 | A call teardown keeps the manager consistent, and only marks the profile's flows deleted. |
| ProfileManager.ProfileManager.FindOldestDeleted | components/tafDataCallSvc/tafDcsProfileManagerImpl.cpp:2690-2702 | The scan loop computes the recursive minimum of the specification. |
| ProfileManager.ProfileManager.EvictOldestDeletedQosFlow | components/tafDataCallSvc/tafDcsProfileManagerImpl.cpp:2682-2718 | Frees exactly the flow the scan picks, from map and list, or reports that there is none, as for an unknown profile, and changes nothing. |
| ProfileManager.ProfileManager.HandleFlowEvent | components/tafDataCallSvc/tafDcsProfileManagerImpl.cpp:5292-5381 | The branches of the handler compute the specified new table and the notice, for activation (reuse, eviction, creation, drop), modification, deletion and other states. |
| ProfileManager.ProfileManager.PaQosTftEvent | components/tafDataCallSvc/tafDcsProfileManagerImpl.cpp:5279-5382 | The handler keeps the whole manager consistent. A known flow takes the reported state, and the mask if it is active then, and clients hear of it unless it was active and is activated again; a new flow is created active with the event's mask under the next number and announced, or dropped without change; an unknown flow is otherwise only announced, and an unknown profile ignored. |
| ProfileManager.ProfileManager.AddQosStatusHandler | components/tafDataCallSvc/tafDcsProfileManagerImpl.cpp:3228-3258 | A handler is registered and counted exactly if the profile exists and has been created; otherwise nothing changes. |
| ProfileManager.ProfileManager.DecrementQosListener | components/tafDataCallSvc/tafDcsProfileManagerImpl.cpp:3278-3304 | The count again equals the number of handlers of each profile, is absent at zero, and at zero the flows of the profile behind the reference are freed; a profile without a count is left alone. |
| ProfileManager.ProfileManager.RemoveQosStatusHandler | components/tafDataCallSvc/tafDcsProfileManagerImpl.cpp:3260-3275 | Removing a handler drops it, and its profile's flows if it was the last; an unknown handler changes nothing. |
| ProfileManager.ProfileManager.SweepHandlers | components/tafDataCallSvc/tafDcsProfileManagerImpl.cpp:4757-4777 | The erase-while-iterating walk, in any order, drops exactly the handlers of that client and frees the flows of the profiles that thereby lost their last listener. |
| ProfileManager.ProfileManager.SweepRequesters | components/tafDataCallSvc/tafDcsProfileManagerImpl.cpp:4779-4817 | Over the phones in order and their profiles in any order, the client leaves every set, and a stop is queued once for each profile of which it was the sole requester, and for no other. |
| ProfileManager.ProfileManager.ClientDisconnected | components/tafDataCallSvc/tafDcsProfileManagerImpl.cpp:4748-4818 | A disconnect removes exactly that client's handlers; on every profile of the phones, and no other, it takes the client out of the requesters and both asynchronous maps, and leaves all other clients there; a stop is due exactly for the profiles whose only requester it was; the manager stays consistent. |
| ProfileManager.ProfileManager.UpdateSessionDetails | components/tafDataCallSvc/tafDcsProfileManagerImpl.cpp:3515-3551 | A session change stores the states of that profile only and, when the session is down, marks its flows deleted: the two always go together. |
| ProfileManager.ProfileManager.PaSessionStateChange | components/tafDataCallSvc/tafDcsProfileManagerImpl.cpp:5021-5176 | A change of a known profile stores its three states and no other profile's, sends one notice for each IP family of the PDP whose state changed, marks the profile's flows and no others deleted when it went down, and, when connected or disconnected, fulfils the waiting promise or else reports both asynchronous responses with the results the state calls for; an unknown profile changes nothing. |
| ProfileManager.ProfileManager.GetProfileRef | components/tafDataCallSvc/tafDcsProfileManagerImpl.cpp:259-321 | Refuses other phones; returns the reference of an existing profile; creates a profile still to be created only for the undefined id; changes nothing otherwise. |
| ProfileManager.ProfileManager.AddProfile | components/tafDataCallSvc/tafDcsProfileManagerImpl.cpp:4153-4249 | A new object goes under both its key and its reference, and both maps stay the same set of objects; a key that is taken is refused. |
| ProfileManager.ProfileManager.CreateProfile | components/tafDataCallSvc/tafDcsProfileManagerImpl.cpp:452-498 | The error cases change nothing. After success the manager is consistent if and only if the key of the id that the platform chose was free and the profile tracked no flows. |
| ProfileManager.ProfileManager.UpdateProfilesMapKey | components/tafDataCallSvc/tafDcsProfileManagerImpl.cpp:4199-4228 | The old key goes; the new key gets the object only if it was free; without the old key nothing changes. |
| ProfileManager.ProfileManager.DeleteProfile | components/tafDataCallSvc/tafDcsProfileManagerImpl.cpp:500-540 | The error cases change nothing. After success both maps forget exactly that object, its requesters and waiting requests among it, and the manager is consistent if and only if the profile tracked no flows. |
| ProfileManager.ProfileManager.OneUncreated | components/tafDataCallSvc/tafDcsProfileManagerImpl.cpp:259-321 | A phone has at most one profile that is still to be created. |
| ProfileManager.ProfileManager.UpdateProfile | components/tafDataCallSvc/tafDcsProfileManagerImpl.cpp:3437-3512 | A platform update changes the details of one profile only, or adds one. It reaches the profile of the phone behind the slot if and only if slot and phone numbers agree or neither key exists. |
| ProfileManager.ProfileManager.SetPdp | components/tafDataCallSvc/tafDcsProfileManagerImpl.cpp:835-879 | Setting the PDP type changes it for that profile only, when the profile is still to be created or the platform accepts it; no session state changes and nobody is notified. |
| ProfileFaults.TakenIdLosesTheProfile | components/tafDataCallSvc/tafDcsProfileManagerImpl.cpp:452-498 | From an empty manager: a creation that succeeds with an id that is taken, and leaves the manager inconsistent. |
| ProfileFaults.NamingLeavesAFlow | components/tafDataCallSvc/tafDcsProfileManagerImpl.cpp:452-498 | The same with a profile still to be created that a platform flow event for the undefined id gave a flow. |
| ProfileFaults.DeletionLeavesAFlow | components/tafDataCallSvc/tafDcsProfileManagerImpl.cpp:500-540 | A deletion that succeeds, of a profile with a flow, and leaves the manager inconsistent. |
| ProfileFaults.UpdateReachesTheOtherPhone | components/tafDataCallSvc/tafDcsProfileManagerImpl.cpp:3437-3512 | With both phones under one id, an update for phone 1 in slot 2 changes the details of phone 2 and not those of phone 1. |
| ProfileManager.CountAfterAdd | components/tafDataCallSvc/tafDcsProfileManagerImpl.cpp:3253-3255 | One more handler adds one to the count of its profile and to no other. |
| DataClients.SweepLeaves | components/tafDataCallSvc/tafDcsProfileManagerImpl.cpp:4779-4803 | On the profiles of the phones the client is no requester any more and has neither a start nor a stop waiting; every other client's membership and callbacks are as before, and so are the profiles of other phones. |
| Profile.TafDcsProfile.Forget | components/tafDataCallSvc/tafDcsProfileManagerImpl.cpp:4793-4803 | The client, and nobody else, leaves the requester set and both asynchronous maps; the result says whether it was the only requester. |
| DataClients.NullHolderIsNeverStopped | components/tafDataCallSvc/tafDcsSvcImpl.cpp:267-278 | No sequence of disconnects of real clients stops a profile that the service's own null client holds, nor removes that client. |
| Profile.TafDcsProfile.PaSessionStateChange | components/tafDataCallSvc/tafDcsProfileManagerImpl.cpp:5121-5175 | Stores the three new states, and sends one notice for each IP family of the PDP, IPv4 first, exactly when that family's state differs from the one cached before. |
| Sessions.OnlyOfNotices | components/tafDataCallSvc/tafDcsProfileManagerImpl.cpp:5121-5175 | What the handler sends for an event notifies each family once, with its reported state, exactly when the PDP has the family and the state differs from the cached one; IPv4 is in the PDP types IPv4 and IPv4v6, IPv6 in IPv6 and IPv4v6. |
| Sessions.LosslessDeduplication | components/tafDataCallSvc/tafDcsProfileManagerImpl.cpp:5121-5175 | While a family stays in the PDP and no start times out, over every run, folding its notices gives its cached state, and no notice repeats the one before. |
| Sessions.BeliefIff | components/tafDataCallSvc/tafDcsProfileManagerImpl.cpp:5121-5175 | After any run, with start timeouts and changes of the PDP type, what the clients of a family believe is the cached state if and only if that is the state reported by the last change that found the family in the PDP and differing from the cache, or "disconnected" if there was none. |
| Sessions.PdpHidesAChange | components/tafDataCallSvc/tafDcsProfileManagerImpl.cpp:835-879 | A run without timeouts after which a family in the PDP is cached as disconnected and its clients believe it connected: it was out of the PDP when it went down. |
| Sessions.FixedPdpBeliefIff | components/tafDataCallSvc/tafDcsProfileManagerImpl.cpp:1886-1895 | With a fixed PDP type, the clients of its families believe the cached state if and only if no timeout left them behind: one right after a report of another state than disconnected, with every report since saying disconnected. |
| Sessions.TimeoutLeavesBehind | components/tafDataCallSvc/tafDcsProfileManagerImpl.cpp:1886-1895 | A start that times out while connecting leaves its clients with a wrong belief. |
| Profile.TafDcsProfile.SetPdp | components/tafDataCallSvc/tafDcsProfileImpl.cpp:426-432 | Only the PDP type of the cached session changes. |
| Profile.TafDcsProfile.StartTimedOut | components/tafDataCallSvc/tafDcsProfileManagerImpl.cpp:1886-1895 | The timeout branch resets all three states and sends nothing. |
| Async.InitialBalanced | components/tafDataCallSvc/tafDcsProfileManagerImpl.cpp:4891-4998 | A profile without requests is balanced. |
| Async.NextKeeps | components/tafDataCallSvc/tafDcsProfileManagerImpl.cpp:4891-4998 | Every atomic step of the main thread and of the event thread, a deletion of the profile included, keeps the account of requests balanced and the walk over the copied requesters in step with the maps. |
| Async.RequestsAreConserved | components/tafDataCallSvc/tafDcsProfileManagerImpl.cpp:4891-4998 | Over every interleaving a request is called back exactly once, cancelled by a disconnect, or still waiting, and never two of these, if and only if its client had no entry of that kind when it was filed and the profile was not deleted while it waited; otherwise it is none of them. |
| Async.NeverDealtWith | components/tafDataCallSvc/tafDcsProfileManagerImpl.cpp:1943-1946 | A request filed over an entry, or dropped with its profile, is dealt with by no later step. |
| Async.DisconnectLeaves | components/tafDataCallSvc/tafDcsProfileManagerImpl.cpp:4793-4803 | After a disconnect the client is no requester and has nothing waiting, what waited is cancelled, and nobody else is touched: the step is the sweep of the manager's objects. |
| Async.DroppedWithItsProfile | components/tafDataCallSvc/tafDcsProfileManagerImpl.cpp:500-540 | A run files a start and deletes the profile, whose session is not up yet: the request was accepted and is neither called, cancelled nor waiting. |
| Async.LostInTheWindow | components/tafDataCallSvc/tafDcsProfileManagerImpl.cpp:4921-4927 | A request filed between the callback of an earlier one and the erasure of its entry is lost: a run ends with the first called back, nothing pending, and the second neither called, cancelled nor waiting. |
| Async.EndedWalkCalledAll | components/tafDataCallSvc/tafDcsProfileManagerImpl.cpp:4915-4936 | A response that has ended called back, once, every request that was pending when it began. |
| Async.EnrollmentFollowsCallback | components/tafDataCallSvc/tafDcsProfileManagerImpl.cpp:4922-4935 | Over any stretch of a response in which the main thread does not change the client set, every client the response has finished with is enrolled by a start with OK and left out by a stop, and stays so. |
| Async.WholeResponse | components/tafDataCallSvc/tafDcsProfileManagerImpl.cpp:4915-4998 | Without such a change, that is every copied client when the response ends. |
| Async.EnrolledIff | components/tafDataCallSvc/tafDcsProfileManagerImpl.cpp:4891-4936 | A response carries one result to every waiting starter: when it ends, each of them is a requester if and only if that result is OK or the client was one when it began. |
| Async.EarlierStarterLeftOut | components/tafDataCallSvc/tafDcsProfileManagerImpl.cpp:2057-2073 | A second start while the session comes up answers every waiting starter "in progress": a run ends with both clients called back and only the second a requester. |
| Throughput.DeletedKeeps | components/tafDataCallSvc/tafDcsProfileManagerImpl.cpp:2873-2894 | Deleting a list invalidates exactly the references created from it. |
| Throughput.WithInfoKeeps | components/tafDataCallSvc/tafDcsProfileManagerImpl.cpp:2910-2935 | A new reference belongs to its list and to no other. |
| Throughput.CountIsTotal | components/tafDataCallSvc/tafDcsProfileManagerImpl.cpp:2847-2935 | There are as many info references as the live lists handed out together. |
| Throughput.ThroughputStore.GetLastThroughputInfoList | components/tafDataCallSvc/tafDcsProfileManagerImpl.cpp:2847-2871 | A successful fetch makes one live list without references; phone 0 and platform errors change nothing. |
| Throughput.ThroughputStore.DeleteLastThroughputInfoList | components/tafDataCallSvc/tafDcsProfileManagerImpl.cpp:2873-2894 | The loop invalidates the list and its references, and nothing else; an unknown list changes nothing. |
| Throughput.ThroughputStore.GetThroughputInfo | components/tafDataCallSvc/tafDcsProfileManagerImpl.cpp:2910-2935 | A new reference to a copy of exactly the entry at the index, owned by the list; an unknown list or an index out of range changes nothing. |
| AudioGraph.AcquiredIsEmpty | components/tafAudioSvc/tafAudioImpl.cpp:533-570 | Every map handed out, recycled or new, is empty, was used by nobody, and becomes the only newly used one. |
| AudioGraph.Symmetric | components/tafAudioSvc/tafAudioImpl.cpp:819-901 | In a consistent graph a stream lists a connector if and only if the connector lists the stream, in its in-list for inputs and its out-list for outputs only. |
| AudioGraph.GoneIsUnreferenced | components/tafAudioSvc/tafAudioImpl.cpp:1285-1340 | No map, used or free, holds a stream or connector that no longer exists. |
| AudioKeeps.CreateConnectorKeeps | components/tafAudioSvc/tafAudioImpl.cpp:773-790 | A new connector keeps the pool (used maps are exactly those owned, each once), the two sides of every link and the reference counts. |
| AudioKeeps.NewConnectorFields | components/tafAudioSvc/tafAudioImpl.cpp:773-790 | A new connector stores the creating session; no other connector and no stream changes. |
| AudioKeeps.NewStreamKeeps | components/tafAudioSvc/tafAudioImpl.cpp:1152-1199 | A new stream keeps them. |
| AudioKeeps.NewStreamFields | components/tafAudioSvc/tafAudioImpl.cpp:1152-1197 | A new stream is an input or an output by its interface, stores a direction only for files, and has one node, of the opening session, and one reference. |
| AudioKeeps.AddReferenceKeeps | components/tafAudioSvc/tafAudioImpl.cpp:1184-1197 | Sharing a stream adds one node of the opening session and one reference, changes nothing else, and keeps them. |
| AudioKeeps.ConnectKeeps | components/tafAudioSvc/tafAudioImpl.cpp:819-901 | Connecting keeps them. |
| AudioKeeps.DisconnectKeeps | components/tafAudioSvc/tafAudioImpl.cpp:906-992 | Disconnecting keeps them. |
| AudioKeeps.ConnectThenDisconnect | components/tafAudioSvc/tafAudioImpl.cpp:906-992 | Disconnecting right after connecting restores the whole graph. |
| AudioKeeps.DeleteConnectorKeeps | components/tafAudioSvc/tafAudioImpl.cpp:795-814 | Deleting a connector frees both its maps, removes it from every stream's list and keeps the rest consistent. |
| AudioKeeps.DestructKeeps | components/tafAudioSvc/tafAudioImpl.cpp:1285-1313 | Destroying a stream frees its map, removes it from every connector and keeps the rest consistent. |
| AudioKeeps.ReleaseKeeps | components/tafAudioSvc/tafAudioImpl.cpp:1013-1050 | A release keeps the graph consistent, and the stream survives if and only if a session node is left. |
| AudioKeeps.ReleaseLeaves | components/tafAudioSvc/tafAudioImpl.cpp:1013-1050 | A release takes one of the session's nodes, or all of them, with a reference each; the stream goes exactly if no node is left, and no other stream or connector changes. |
| AudioKeeps.ShareThenRelease | components/tafAudioSvc/tafAudioImpl.cpp:1124-1197 | Opening an open stream and releasing it again, by a session that held nothing on it, restores the whole graph. |
| AudioLoops.DeleteContents | components/tafAudioSvc/tafAudioImpl.cpp:599-634 | Unlisting the connector only from the streams in its own two lists removes it from every list there is. |
| AudioLoops.DestructContents | components/tafAudioSvc/tafAudioImpl.cpp:1308-1340 | Disconnecting only from the connectors the stream lists removes it from every connector. |
| AudioRuns.LinkedStep | components/tafAudioSvc/tafAudioImpl.cpp:773-992 | A call links or unlinks only the pair it names; closing anything keeps the links of what remains; what is opened starts without links. |
| AudioRuns.RunKeeps | components/tafAudioSvc/tafAudioImpl.cpp:773-1313 | After every run of calls from the empty service on, pool, links and reference counts are consistent. |
| AudioRuns.LinkedIffLastLinked | components/tafAudioSvc/tafAudioImpl.cpp:819-992 | After every run a live connector and a live stream are linked if and only if they were connected, and not disconnected since, after the younger of them was opened. |
| AudioRuns.OpenWhileHeld | components/tafAudioSvc/tafAudioImpl.cpp:1013-1200 | After every run each session has exactly as many nodes on a stream as its own openings and releases left it with, and a stream is open exactly while some session has one. |
| AudioSharing.SharesIff | components/tafAudioSvc/tafAudioImpl.cpp:1120-1200 | Opening a stream keeps one stream for each interface (and direction, for files) if and only if it is a file interface, or the compared direction happens to be zero, or no stream of the interface is open. |
| AudioSharing.OpensTwice | components/tafAudioSvc/tafAudioImpl.cpp:1140-1147 | After a run with one voice stream, opening it with a stray direction makes a second stream of the same interface. |
| AudioManager.AudioManager.GetHashMap | components/tafAudioSvc/tafAudioImpl.cpp:533-570 | The walk returns the first unused map and marks it used; only if all are in use a new one is queued. |
| AudioManager.AudioManager.ClearHashMap | components/tafAudioSvc/tafAudioImpl.cpp:572-597 | The walk marks that map unused, and no other. |
| AudioManager.AudioManager.CreateConnector | components/tafAudioSvc/tafAudioImpl.cpp:773-790 | The connector stores the caller's session and takes two maps from the pool; the graph stays consistent and no other connector or stream changes. |
| AudioManager.AudioManager.Connect | components/tafAudioSvc/tafAudioImpl.cpp:819-901 | Unknown references are a bad parameter and a link that exists is busy, both without change; otherwise both sides get the link, also when the stream paths then fail to open and that error is returned. |
| AudioManager.AudioManager.Disconnect | components/tafAudioSvc/tafAudioImpl.cpp:906-992 | Both sides lose the link; unknown references and a missing link change nothing. |
| AudioManager.AudioManager.DeleteHashMap | components/tafAudioSvc/tafAudioImpl.cpp:599-637 | The two unlisting loops and the two clears leave no trace of the connector in any list, and its maps empty and free. |
| AudioManager.AudioManager.DeleteConnector | components/tafAudioSvc/tafAudioImpl.cpp:795-814 | Removes a live connector from everywhere; an unknown reference changes nothing. |
| AudioManager.AudioManager.CreateStream | components/tafAudioSvc/tafAudioImpl.cpp:1124-1200 | A hardware stream with the same interface and direction is shared, otherwise a new stream is made; either way exactly one node, of the opening session, and one reference are added, and no other stream changes. |
| AudioManager.AudioManager.DisconnectConnectors | components/tafAudioSvc/tafAudioImpl.cpp:1319-1340 | The sweep disconnects the stream from every connector it lists, in any order. |
| AudioManager.AudioManager.DestructStream | components/tafAudioSvc/tafAudioImpl.cpp:1285-1313 | The destructor removes the stream from everywhere and frees its map. |
| AudioManager.AudioManager.ReleaseStream | components/tafAudioSvc/tafAudioImpl.cpp:1013-1050 | One of the session's nodes, or all, go with a reference each; the stream goes exactly if none is left; nothing else changes. |
| AudioManager.AudioManager.ReleaseNodes | components/tafAudioSvc/tafAudioImpl.cpp:1013-1050 | The loop gives back one reference per removed node, runs the destructor exactly with the last, and never reads the stream after that. |
| AudioManager.AudioManager.FilesToStop | components/tafAudioSvc/tafAudioImpl.cpp:402-425 | The first pass of the close handler stops exactly the file streams from the first stream of the session on in the walk. |
| AudioManager.AudioManager.CloseSession | components/tafAudioSvc/tafAudioImpl.cpp:441-487 | After a client session closes, exactly the streams with other sessions and the connectors of other sessions remain, with the links among them, every other session's nodes and none of its own. |
| AudioSessions.StopsOnlyOwnIff | components/tafAudioSvc/tafAudioImpl.cpp:402-425 | The first pass stops only the closing session's file streams if and only if no other client's file stream comes after one of the session's streams in the walk: the match flag is never reset. |
| AudioSessions.StoppedExactly | components/tafAudioSvc/tafAudioImpl.cpp:402-425 | A stream is stopped if and only if it is a file stream that the walk meets at or after the first stream of the session. |
| AudioSessions.OwnFilesAreStopped | components/tafAudioSvc/tafAudioImpl.cpp:402-425 | None of the closing session's file streams is passed over. |
| AudioRuns.StopsForeignFile | components/tafAudioSvc/tafAudioImpl.cpp:402-425 | Two clients with one stream each, the first a speaker and the second a player: closing the first stops the second's player. |
| Pump.WrapIsModulo | components/tafAudioSvc/tafAudioImpl.cpp:3086-3087 | 32-bit unsigned arithmetic is the residue modulo 2^32. |
| Pump.StartConservesIff | components/tafAudioSvc/tafAudioImpl.cpp:2112-2115 | A start keeps buffers and finalisations conserved if and only if no file is still open; the service only looks at the recording flag. |
| Pump.StepConserves | components/tafAudioSvc/tafAudioImpl.cpp:2372-2396 | Every other step keeps the two buffers each in exactly one place, an event to come for every free buffer, and one finalisation for every recording but the open one. |
| Pump.NoNullEventIff | components/tafAudioSvc/tafAudioImpl.cpp:2390-2394 | A step lets a null stream be posted if and only if it finalises while a callback is between queuing its buffer and posting its event. |
| Pump.StopIsFinalisedOnce | components/tafAudioSvc/tafAudioImpl.cpp:3122-3163 | Under every interleaving a stopped recording is finalised exactly once and within a fixed number of steps: a run that has not closed the file is shorter than that and can be extended. |
| Pump.ClosedStaysClosed | components/tafAudioSvc/tafAudioImpl.cpp:3043-3046 | Once the file is closed, callbacks and events change nothing of it until the next start. |
| Pump.OrderlyRunInvariant | components/tafAudioSvc/tafAudioImpl.cpp:2278-2316 | Over every run in which recordings start on a closed file: conservation and, if the size test is sound, the byte bound max(44 + 2*size, limit - 1) on the bytes written, lost and still out. |
| Pump.FinalisedFile | components/tafAudioSvc/tafAudioImpl.cpp:3129-3191 | Whenever such a run finalises a file under a sound size test: its length is at most max(44 + 2*size, limit - 1); every recording so far has been finalised; the header holds the 32-bit count of the bytes delivered and, for a 32-bit bound, describes the file if and only if no short write lost bytes; the client hears of an error if and only if the run delivered no bytes to it, or a read failed or the capture stream was missing since the finalisation before. |
| Pump.FinishTells | components/tafAudioSvc/tafAudioImpl.cpp:3129-3191 | Under every configuration and over every run, from the steps alone: the header counts the bytes of the successful reads since the last start, the file holds those stored, and the client hears of an error if and only if that count is zero modulo 2^32, or a read failed or the handler found an open file without capture stream since the last finalisation. |
| Pump.ErrorIsKept | components/tafAudioSvc/tafAudioImpl.cpp:2377-2381 | Over every run the error flag is up exactly while a failure has happened since the last finalisation. |
| Pump.BoundIff | components/tafAudioSvc/tafAudioImpl.cpp:3085-3095 | Under every configuration, all runs in which recordings start on a closed file obey the byte bound if and only if the 32-bit size test is sound: no total within the limit passes it although two more reads exceed the limit. |
| Pump.SoundIffNoWrap | components/tafAudioSvc/tafAudioImpl.cpp:3086-3087 | The size test is sound if its sums fit 32 bits and, for a limit beyond the first two reads, only then. |
| PumpFaults.LimitIsPassed | components/tafAudioSvc/tafAudioImpl.cpp:3085-3095 | With 4096-byte reads and the largest 32-bit limit some run exceeds the limit. |
| PumpFaults.ShortWriteMisdescribes | components/tafAudioSvc/tafAudioImpl.cpp:2383-2386 | Under every configuration a recording can end with a header that promises a byte the file does not hold. |
| PumpFaults.StartsAreAccounted | components/tafAudioSvc/tafAudioImpl.cpp:2112-2115 | Over every run, recordings started are those finalised, the one whose file is open, and one for each start on an open file. |
| PumpFaults.AllFinalisedIff | components/tafAudioSvc/tafAudioImpl.cpp:2112-2115 | When the file is closed, every recording has been finalised if and only if none started on an open file. |
| PumpFaults.LostForGood | components/tafAudioSvc/tafAudioImpl.cpp:2112-2115 | Once a recording has started on an open file, fewer recordings are finalised than started however the run goes on. |
| PumpFaults.RestartLosesAFinalisation | components/tafAudioSvc/tafAudioImpl.cpp:3086-3096 | Under every configuration whose size test cannot wrap, a recording that is accepted between a size stop and its finalisation makes such a run. |
| PumpFaults.NeverNullIff | components/tafAudioSvc/tafAudioImpl.cpp:2390-2394 | Over every run in which recordings start on a closed file, a null stream is posted or about to be, at some point, if and only if a file was closed while a callback was between queuing its buffer and posting its event. |
| PumpFaults.NullIsReached | components/tafAudioSvc/tafAudioImpl.cpp:2390-2394 | Under every configuration one recording, stopped by its client, can end with the buffer thread handed a null stream. |
| Recorder.Recorder.StartRecording | components/tafAudioSvc/tafAudioImpl.cpp:2278-2316 | The loops drop stale buffers, queue two and submit both: the pump's start step. |
| Recorder.Recorder.SetWavHeader | components/tafAudioSvc/tafAudioImpl.cpp:2334-2369 | The initial header has an empty data chunk and the file length less 8. |
| Recorder.Recorder.ReadCallback | components/tafAudioSvc/tafAudioImpl.cpp:2372-2396 | A callback counts the bytes modulo 2^32 and stores them, or stops recording and records the error; either way its buffer is queued last, leaves the platform, and posts one event with the stream as it is then: the pump's delivery and report. |
| Recorder.Recorder.ContinueReading | components/tafAudioSvc/tafAudioImpl.cpp:3085-3119 | At the limit recording stops and one event is posted; otherwise the first free buffer, if any, is submitted. |
| Recorder.Recorder.RecBufferHandler | components/tafAudioSvc/tafAudioImpl.cpp:3033-3121 | A null stream is fatal and a closed file ignored; without capture stream recording stops with an error, and that or a stop begins finalising; otherwise reading goes on: the pump's handling step. |
| Recorder.Recorder.Finalise | components/tafAudioSvc/tafAudioImpl.cpp:3129-3194 | The header gets the counted size and that plus 36 modulo 2^32, the file is closed, the client hears of an error if nothing was counted or an error recorded, and the error is cleared: the pump's finalising step. |
| FileTransfer.BigEndianOfValue | components/tafDiagBackendSvc/tafDiagStackInf.cpp:576-588 | Reading the laid-out bytes of a size gives the size modulo 256^width. |
| FileTransfer.ShiftedByte | components/tafDiagBackendSvc/tafDiagStackInf.cpp:578-579 | The byte computed by shifting is the laid-out byte at that place. |
| FileTransfer.LayoutThenParse | components/tafDiagBackendSvc/tafDiagStackInf.cpp:555-595 | A receiver that follows the layout recovers every well-formed message. |
| FileTransfer.ParseThenLayout | components/tafDiagBackendSvc/tafDiagStackInf.cpp:555-595 | Every frame such a receiver accepts is the layout of what it read. |
| FileTransfer.RoundTrip | components/tafDiagBackendSvc/tafDiagStackInf.cpp:555-595 | The frame of any mode, path and width is read back as the request, sizes modulo 256^width, and has exactly the length that mode, path and width determine. |
| FileTransfer.FrameBytes | components/tafDiagBackendSvc/tafDiagStackInf.cpp:555-595 | Byte by byte from the request: 0x38, mode, 16-bit path length, path; for modes 1, 3 and 6 format, width, then the uncompressed and the compressed size; for mode 4 the format; nothing else. |
| FileTransfer.PutHead | components/tafDiagBackendSvc/tafDiagStackInf.cpp:562-569 | Service id, mode, 16-bit path length and path are in the buffer, and nothing after them changed. |
| FileTransfer.PutSize | components/tafDiagBackendSvc/tafDiagStackInf.cpp:576-581 | The shifting loop writes the big-endian bytes of a size and nothing else. |
| FileTransfer.EncodeRequest | components/tafDiagBackendSvc/tafDiagStackInf.cpp:555-597 | The buffer holds exactly those bytes of the request, zero after them, and the length is the frame's. |
| FileTransfer.OrOfDisjointBits | components/tafDiagBackendSvc/tafDiagStackInf.cpp:626 | Oring in a byte shifted past all earlier bits adds it. |
| FileTransfer.ResumePosition | components/tafDiagBackendSvc/tafDiagStackInf.cpp:623-627 | The loop of ors is the sum of all eight bytes, the first of least weight, and fits 64 bits. |
| AppId.MaskedStep | bin/gen-dlt-appid.py:11-13 | Masking before each step does not change the polynomial modulo 2^32. |
| AppId.PolyOfConcat | bin/gen-dlt-appid.py:7-13 | The hash starts from zero, and a character weighs 31 to the number of characters after it. |
| AppId.CharsetOrder | bin/gen-dlt-appid.py:16 | The 63 characters are the capitals, the small letters, the digits and the underscore. |
| AppId.IdAt | bin/gen-dlt-appid.py:19-25 | The character at each of the four places spells the hash's base-63 digit of that place. |
| AppId.GenDltAppid | bin/gen-dlt-appid.py:6-25 | The two loops give the four base-63 digits, least significant first and spelled in the character set, of the unmasked base-31 polynomial modulo 2^32. |
| AppId.DigitsAreResidue | bin/gen-dlt-appid.py:21-23 | The digit loop represents the hash modulo 63^n. |
| AppId.CharsetDistinct | bin/gen-dlt-appid.py:16-17 | The character set has 63 characters, no two alike. |
| AppId.SameIdIff | bin/gen-dlt-appid.py:6-25 | Two strings get the same id if and only if their hashes agree modulo 63^4. |
| AppId.IdsCollide | bin/gen-dlt-appid.py:6-25 | "Aa" and "BB" get the same id. |

## Left out

- Platform calls, modem, VHAL driver, sockets, configuration tree and logging: their results are parameters of the methods.
- Legato: references and handler references are taken to be unique among live ones; event queues to be first-in first-out; map walks to visit each entry present at their start.
- Interleaving inside the profile manager's handlers: each handler is atomic in `ProfileManager`; the asynchronous requests and the recorder, where the interleaving matters, are step systems on values.
- Streams, connectors and hash maps are entries of tables indexed by number rather than heap objects, so that freeing and ownership are visible; use after free shows as a missing key.
- `taf_dcs` and `taf_types` interface definitions are not part of this model: the undefined profile id is a constructor of its own, and the two phone ids are 1 and 2.
- Rejected read submissions in the recorder and the error flag shared with downlink recording.
- Synchronous start and stop wake-ups: one promise serves all profiles, and nothing is claimed about who is woken.
- Explicit stop calls do not look at who else requested data; only the disconnect path is modelled.
- Voice-call flags, routes, volume, mute, DTMF, playback, retry timers and file-format detection. The destructor's route closing compares a reference with an object and is not modelled.
- Diagnostic responses other than the resume position, and the mailbox states around the request.
- Other getters, setters, conversion tables and thin API wrappers: easy members.
- FileTransfer.EncodeRequest: frames longer than the message buffer are excluded, because the source copies the path without a bound check and C++ leaves that undefined; and size widths above 4, because the source then shifts a 32-bit value by 32 bits or more, which C++ leaves undefined.
- FileTransfer.RoundTrip: the same widths are excluded.
- Listeners.NextKeeps: deleting or naming a profile that tracks flows, and naming one under an occupied key, are excluded, because the index is then lost; `Listeners.DeleteProfileKeepsIff`, `Listeners.RekeyedKeepsIff` and `ProfileManager.ProfileManager.CreateProfile` state the exact conditions.
- Recorder.Recorder.StartRecording: the failure returns for a missing capture stream or buffer and for a rejected read are not part of it.
- Recorder.Recorder.SetWavHeader: the constant fields of the header and a failing header write are not part of it.
- Recorder.Recorder.ContinueReading: a rejected read is not part of it.
- Recorder.Recorder.RecBufferHandler: a rejected read is not part of it.
- AudioManager.AudioManager.DestructStream: the route closing and the release of the event id are not part of it.
- Pump.StepConserves: a start while a file is open is excluded, because conservation then fails; `Pump.StartConservesIff` states the exact condition.
- Pump.OrderlyRunInvariant: runs with a start on an open file are excluded; `PumpFaults.AllFinalisedIff` states the exact condition for finalisation.
- Pump.FinalisedFile: the same runs are excluded, and configurations whose size test is not sound, where `Pump.BoundIff` shows the bound to fail; a failing header write at the end is not part of it.
- Recorder.Recorder.Finalise: a failing write of the two header sizes, after which the header may keep its old values, is not part of it.
- PumpFaults.NeverNullIff: the same runs are excluded.
- Async.LostInTheWindow: what the session started by the lost call does is not part of it.
- Sessions.LosslessDeduplication: runs with a start timeout or with the family leaving the PDP are excluded; `Sessions.BeliefIff` covers all runs.
- Sessions.FixedPdpBeliefIff: runs in which the PDP type changes are excluded; `Sessions.BeliefIff` covers all runs.
- ProfileManager.ProfileManager.UpdateSessionDetails: the call end reason, bearer technology and addresses are not part of it.
- Async.RequestsAreConserved: a deletion in the middle of a response is excluded, because it destroys the object under the handler, which C++ leaves undefined.
- Async.EnrolledIff: client set changes by the main thread during the response are excluded; `Async.EnrollmentFollowsCallback` says what each stretch without one settles.
- AudioManager.AudioManager.CloseSession: the route closing and the stopping of file streams between the two passes are not part of it; `AudioManager.AudioManager.FilesToStop` says which streams are stopped.
