# Verified model of the erizo controller's control plane

Controllers of a conferencing system keep each room in Redis hashes (clients, publishers, subscribers and bridge streams),
guard a room with a lease lock, and drive media servers by messages. This project models that control plane in Dafny and proves
properties of all its runs. `dafny verify dfyconfig.toml` checks everything.

## What is modelled

**Rooms.** `RoomModel` has the records, the commands to media servers and what replaying commands builds. `Handlers` writes the
locked section of publish, publisher_answer, subscribe and close as a program of single Redis calls, each of which is answered,
or lost with its write taken or not. `RoomSpec` says what each handler is for without its steps: a close removes the subscriptions
that end with the client, removes its publishers, and recounts the bridges. `Counting` and `Replaying` hold the counting and
replay arguments. `RoomInvariant` proves that answered runs compute the specification; `FailureSafety` that lost calls never leave
a bridge counted beyond its records; `Completion` that success implies no call was lost and, the other way, what a run without lost calls achieves. `Wiring` holds records and
commands against what clients asked for: addresses, names, erizos and queues. `Tuning` follows the SSRCs that receiving erizos are told,
`Readiness` the streams nobody has answered for, `Notices` who is told that a subscription ended. "Every receiving erizo knows the current SSRCs"
is false after a second answer; `StaysInTuneIff` is the exact condition. `Interleaving` runs handlers of any number of
controllers call by call and reduces them to serial order, with the exclusion supplied by the lease lock itself. `ClientHashes` takes every
write of a token or a removal as a step of its own, in any interleaving and with any of them lost. "A client is in its room's hash exactly when
it is in its controller's" is false after a lost addClientToEC and when a removal overlaps a token; `PairedIffNeverTorn` is the exact
condition. `Traces` says whose records a handler can leave behind, in any state of the room, and `History` puts handlers and writes of all rooms and controllers into one
order and says what is left of a removed client.
`RedisStore` and `Controller` are the imperative side: `ErizoController`'s methods rewrite the hashes as the source does, each locked section is
proved to be a run of its program, and other controllers act wherever the source lets them.

**Lease lock.** `LeaseLock` is the protocol of SETNX, GET, GETSET and DEL around one register, with time, clock skew, slow attempts and
bounded holds. The bound on the lease is proved exact. `Locker` is `RedisLocker` as a class whose commands are steps of the protocol.

**IP range table.** `IpRangeTable` models the ordered map as a search tree of any shape that sees only the code's `<`. `StringUtil` has
split and trim, `IpLoader` the load loop from the lines of the file on.

**RPC ring.** `RpcRing` is the state machine of the 256 slots, `RpcClient` the class that updates them in place. The sweep reads its clock
before it enters a slot, so the model does too. "Expires only calls older than the timeout" is therefore false of the code; `EarlyIffStale`
gives the exact condition and `FreshCallExpires` a run.

**Scheduler and timer.** `TaskScheduler` is the state machine of the service threads, `SchedulerService` the nested wait loops of `Scheduler`.
"Never early" is false for two or more threads; `NeverEarlyIffSingle` is the exact condition. `PeriodicTimer` is the delay arithmetic of
`scheduleEvery`.

Assumptions that the statements carry: drawn stream, subscriber and bridge ids are new; a client acts with the agent, erizo, room and reply
queue it got at its one token; a new publisher's SSRCs are 0; Redis commands of the lock answer. Ids are numbers, because the code only
compares them.

## Model

| member | source | states |
|---|---|---|
| RoomInvariant.RunComputesSpec | erizo_controller_cpp/core/erizo_controller.cpp:743-1099 | a publish, answer, subscribe or close whose Redis calls are answered leaves exactly the room its specification gives, with consistent hashes, exact counts and media sessions that replaying the commands rebuilds; it reports success exactly when it gets past its reads |
| RoomInvariant.RunKeeps | erizo_controller_cpp/core/erizo_controller.cpp:743-1099 | the invariant behind it, at every intermediate state of every such run |
| RoomInvariant.StepKeeps | erizo_controller_cpp/core/erizo_controller.cpp:743-1099 | one Redis call of any handler keeps that invariant |
| RoomInvariant.BridgedOnce | erizo_controller_cpp/core/erizo_controller.cpp:1044-1073 | the two delete branches never take one bridged subscriber twice |
| RoomInvariant.WatchedIffOwn | erizo_controller_cpp/core/erizo_controller.cpp:1046-1060 | a subscriber is deleted by the inner loop exactly when it watches a stream of the leaving client |
| RoomInvariant.ScanSubFinds | erizo_controller_cpp/core/erizo_controller.cpp:939-952 | removeBridgeStreamSub finds the bridge of every subscriber it is called for |
| RoomInvariant.LoweredSwept | erizo_controller_cpp/core/erizo_controller.cpp:954-977 | lowering or removing the bridge restores exact counts for the subscribers not yet marked |
| RoomInvariant.AllMarked | erizo_controller_cpp/core/erizo_controller.cpp:1044-1073 | the nested loop marks exactly the subscriptions that are the client's own or watch its streams |
| RoomInvariant.BridgesDrained | erizo_controller_cpp/core/erizo_controller.cpp:1044-1088 | after the nested loop no bridge of the client's streams is left |
| RoomInvariant.ScanPubFindsNothing | erizo_controller_cpp/core/erizo_controller.cpp:981-1008 | so every removeBridgeStreamPub call finds nothing |
| RoomInvariant.RecountIs | erizo_controller_cpp/core/erizo_controller.cpp:1044-1094 | the bridges after the loops are the old ones that still have users, with their users counted afresh |
| Wiring.AlwaysWired | erizo_controller_cpp/core/erizo_controller.cpp:743-1099 | at every moment of every interleaving, locked or not and with any calls lost: each bridge has the address of the erizo at either end, each record the erizo, agent and queue of its client and the name its stream was published under, and each command goes to the erizo or controller of the client it is about |
| Wiring.PathWired | erizo_controller_cpp/core/erizo_controller.cpp:743-1099 | the same over histories of all rooms |
| Wiring.SessionsMeet | erizo_controller_cpp/core/erizo_controller.cpp:850-878 | in a settled room every virtual session has its counterpart: virtual publishers at erizos with a bridged subscriber, virtual subscribers at the erizo of the stream, each told the address of the other |
| Tuning.StaysInTuneIff | erizo_controller_cpp/core/erizo_controller.cpp:564-578 | the erizo at the receiving end of every bridge knows the current SSRCs of the stream; a successful handler keeps that if and only if it is not an answer that gives a bridged stream other SSRCs |
| Tuning.PathInTune | erizo_controller_cpp/core/erizo_controller.cpp:359-384 | so over any history of successful handlers in which no bridged stream is answered again with others |
| Tuning.SettledTunings | erizo_controller_cpp/core/erizo_controller.cpp:916-925 | an erizo has been told the SSRCs of a stream, and not since told to forget it, exactly when a bridge brings it that stream |
| Readiness.SubscribeSucceedsIff | erizo_controller_cpp/core/erizo_controller.cpp:801-817 | with its calls answered a subscribe succeeds if and only if the stream is published with both SSRCs set, and ends not ready if and only if it is published and lacks one |
| Readiness.UnansweredIsUnwatched | erizo_controller_cpp/core/erizo_controller.cpp:753-817 | in any run, whatever calls are lost, a stream that nobody answers for never gets a subscriber record, a welcome or a bridge |
| Readiness.SubscribeIsRefused | erizo_controller_cpp/core/erizo_controller.cpp:801-817 | a subscribe to such a stream changes nothing, and ends not ready when its calls are answered |
| Notices.CloseTellsEveryone | erizo_controller_cpp/core/erizo_controller.cpp:1044-1073 | a successful close notifies about every subscription that ends, with its client and stream and at its controller, and about no other |
| RoomSpec.Teardown | erizo_controller_cpp/core/erizo_controller.cpp:1020-1099 | a closed client leaves no publisher, no subscriber and no bridge of its streams; every surviving subscriber names a surviving publisher; other records are unchanged |
| RoomSpec.CloseNeverStrandsABridge | erizo_controller_cpp/core/erizo_controller.cpp:954-977 | every bridge that survives a close has a surviving subscriber of another client |
| Counting.ExactCounts | erizo_controller_cpp/core/erizo_controller.cpp:835-889 | for every source stream and receiving erizo the count, 0 if there is no bridge, is the number of bridged subscriber records with that pair |
| Counting.SafeBridgeHasUser | erizo_controller_cpp/core/erizo_controller.cpp:954-977 | whatever calls failed, a bridge never outlives its last subscriber record |
| Counting.ExactLower | erizo_controller_cpp/core/erizo_controller.cpp:954-977 | taking a user off finds its bridge and keeps the counts exact, with the bridge lowered or removed |
| Counting.ExactNew | erizo_controller_cpp/core/erizo_controller.cpp:850-878 | a first bridge with count 1 makes the counts exact again |
| Counting.ExactBump | erizo_controller_cpp/core/erizo_controller.cpp:879-888 | one more on an existing bridge makes the counts exact again |
| Replaying.MediaConnect | erizo_controller_cpp/core/erizo_controller.cpp:564-607 | the two add commands of a new bridge bring replay and bridge hash together |
| Replaying.VirtualsDisconnect | erizo_controller_cpp/core/erizo_controller.cpp:916-937 | removing a virtual publisher by its source stream alone removes that of one bridge and no other |
| Replaying.MediaFarewell | erizo_controller_cpp/core/erizo_controller.cpp:1057-1058 | the commands for a deleted subscriber end its session and no other |
| Replaying.MediaClosed | erizo_controller_cpp/core/erizo_controller.cpp:1090-1094 | what is left of the sessions is what the remaining records call for |
| FailureSafety.StepSafe | erizo_controller_cpp/core/erizo_controller.cpp:743-1099 | every call, answered or lost with or without its write, keeps counts at most the records behind them and bridge keys unique |
| FailureSafety.RunSafe | erizo_controller_cpp/core/erizo_controller.cpp:743-1099 | so it is in every state of every run, whatever calls are lost |
| Completion.SuccessIsGood | erizo_controller_cpp/core/erizo_controller.cpp:743-1099 | a handler that reports success lost no call |
| Completion.SuccessMeetsSpec | erizo_controller_cpp/core/erizo_controller.cpp:743-1099 | so success alone implies the specification and a settled room |
| Completion.CalmMeetsSpec | erizo_controller_cpp/core/erizo_controller.cpp:743-1099 | a handler that loses no call computes its specification and succeeds exactly when it gets past its reads |
| Completion.CalmCloseSucceeds | erizo_controller_cpp/core/erizo_controller.cpp:1033-1094 | a close that loses no call succeeds in any room, settled or not |
| Completion.ReachedSafe | erizo_controller_cpp/core/erizo_controller.cpp:743-1099 | and every outcome leaves the counts safe |
| Interleaving.Serialisable | erizo_controller_cpp/core/erizo_controller.cpp:365-384 | when nobody is in a locked section, room and commands are those of some serial order of the committed handlers, each of them once |
| Interleaving.Compose | erizo_controller_cpp/core/erizo_controller.cpp:762-773 | with answered calls the room is the composition of the handlers' specifications, and is settled |
| Interleaving.AlwaysSafe | erizo_controller_cpp/core/erizo_controller.cpp:794-889 | at every moment of every interleaving, with calls lost anywhere, counts are safe |
| Interleaving.LockExcludes | erizo_controller_cpp/core/erizo_controller.cpp:1027-1032 | the lease lock gives the exclusion these results need |
| Interleaving.LockedRoomIsSerial | erizo_controller_cpp/core/erizo_controller.cpp:743-1099 | end to end: lease lock, any number of controllers, any interleaving; serial and settled whenever the lock is free |
| Interleaving.CountsAndCommandsAgree | erizo_controller_cpp/core/erizo_controller.cpp:743-1099 | from an empty room, whenever the lock is free: unique bridge keys, counts equal to the bridged subscribers, replayed commands equal to the hashes, every subscriber with its publisher |
| Interleaving.LockedRoomIsSafe | erizo_controller_cpp/core/erizo_controller.cpp:743-1099 | end to end with lost calls: safe at every moment |
| LeaseLock.AtMostOneHolder | erizo_controller_cpp/redis/redis_locker.cpp:20-77 | in every reachable state of any number of contenders at most one holds the lock, including overwritten stamps and nil GETSET answers |
| LeaseLock.CommandKeeps | erizo_controller_cpp/redis/redis_locker.cpp:30-66 | one Redis command keeps the invariant behind it |
| LeaseLock.TwoHolders | erizo_controller_cpp/redis/redis_locker.cpp:46-61 | a run with two holders for every way of exceeding the bound by one |
| LeaseLock.ExclusiveIffCovered | erizo_controller_cpp/redis/redis_locker.cpp:20-77 | exclusion holds in all runs if and only if hold + attempt + twice the clock skew is at most the lease |
| LeaseLock.SetIsHeld | erizo_controller_cpp/redis/redis_locker.cpp:30-66 | a command that sets an absent key leaves its contender holding the lock, the nil GETSET included |
| LeaseLock.SetMeansHeld | erizo_controller_cpp/redis/redis_locker.cpp:20-77 | from an absent key the key is set only while somebody holds the lock |
| LeaseLock.AttemptAcquiresIff | erizo_controller_cpp/redis/redis_locker.cpp:30-66 | an undisturbed attempt acquires the lock if and only if the key is absent or older than the lease, and otherwise leaves everything as it was |
| LeaseLock.WritesAnyway | erizo_controller_cpp/redis/redis_locker.cpp:39-76 | GETSET writes its stamp whether it wins or loses; a holder that is done leaves no key |
| Locker.RedisLocker.TryLock | erizo_controller_cpp/redis/redis_locker.cpp:20-69 | makes the commands its answers call for and holds the lock afterwards exactly when SETNX found no key, or GET and GETSET found none, or GET found a stamp older than the lease and GETSET that stamp or none; the flag is set exactly when the protocol has this contender as holder, with others acting between any two commands |
| Locker.RedisLocker.Unlock | erizo_controller_cpp/redis/redis_locker.cpp:71-77 | releases what is held, and is harmless otherwise |
| Locker.RedisLocker.Lock | erizo_controller_cpp/redis/redis_locker.cpp:79-90 | makes attempts until the first success or until try_time + 1 have failed; with a negative try_time only success ends it |
| Locker.LockersExclude | erizo_controller_cpp/redis/redis_locker.cpp:20-90 | two lockers of one key never both have their flag set when the lease covers the holds |
| RedisStore.Values | erizo_controller_cpp/redis/redis_helper.cpp:165-179 | a hash is listed completely and without repetition |
| RedisStore.Redis.Write | erizo_controller_cpp/redis/redis_helper.cpp:39-45 | a write succeeds, or fails with its effect taken or not; other rooms are untouched |
| RedisStore.Redis.GetPublisher | erizo_controller_cpp/redis/redis_helper.cpp:47-57 | the record under the id, or a failure for a missing one |
| RedisStore.Redis.GetAllSubscriber | erizo_controller_cpp/redis/redis_helper.cpp:99-113 | a snapshot of the subscriber hash |
| RedisStore.Redis.GetAllPublisher | erizo_controller_cpp/redis/redis_helper.cpp:67-81 | a snapshot of the publisher hash |
| RedisStore.Redis.GetAllBridgeStream | erizo_controller_cpp/redis/redis_helper.cpp:165-179 | a snapshot of the bridge hash |
| RedisStore.Redis.AddClient | erizo_controller_cpp/redis/redis_helper.cpp:7-13 | the first write of a token: the client enters its room's hash, unless the call is lost without effect |
| RedisStore.Redis.RemoveClient | erizo_controller_cpp/redis/redis_helper.cpp:15-21 | the first write of a removal: the client leaves its room's hash, unless the call is lost without effect |
| RedisStore.Redis.AddClientToEC | erizo_controller_cpp/redis/redis_helper.cpp:189-194 | the second write of a token, into the controller's hash |
| RedisStore.Redis.RemoveClientFromEC | erizo_controller_cpp/redis/redis_helper.cpp:196-200 | the second write of a removal, in the controller's hash |
| RedisStore.Redis.GetAllClientFromEC | erizo_controller_cpp/redis/redis_helper.cpp:202-215 | the clients of a controller |
| Controller.ErizoController.PublishLocked | erizo_controller_cpp/core/erizo_controller.cpp:769-775 | is a run of the publish program, calm when no call was lost |
| Controller.ErizoController.HandlePublish | erizo_controller_cpp/core/erizo_controller.cpp:743-781 | counts stay safe and the lock is released whatever anyone loses; it fails to enter only when all its lock attempts were in vain; a section that loses no call turns a settled room into the specified, settled one and succeeds exactly when it gets past its reads |
| Controller.ErizoController.AnswerLocked | erizo_controller_cpp/core/erizo_controller.cpp:372-384 | is a run of the answer program, calm when no call was lost |
| Controller.ErizoController.HandleAnswer | erizo_controller_cpp/core/erizo_controller.cpp:359-384 | the same for an answer |
| Controller.ErizoController.FindBridge | erizo_controller_cpp/core/erizo_controller.cpp:845-849 | the first bridge with a key, or none |
| Controller.ErizoController.FindSource | erizo_controller_cpp/core/erizo_controller.cpp:990-994 | the first bridge of a stream from a sender, or none |
| Controller.ErizoController.StoreSubscriber | erizo_controller_cpp/core/erizo_controller.cpp:829-891 | continues the subscribe run from the record to the end |
| Controller.ErizoController.JoinBridge | erizo_controller_cpp/core/erizo_controller.cpp:835-889 | continues it through the bridge table |
| Controller.ErizoController.CreateBridge | erizo_controller_cpp/core/erizo_controller.cpp:850-878 | continues it through a new bridge |
| Controller.ErizoController.SubscribeLocked | erizo_controller_cpp/core/erizo_controller.cpp:794-896 | is a run of the subscribe program, calm when no call was lost; a publisher without SSRCs leaves everything as it was |
| Controller.ErizoController.SubscribeOnce | erizo_controller_cpp/core/erizo_controller.cpp:794-817 | one round of the retry loop: lock, section, unlock |
| Controller.ErizoController.HandleSubscribe | erizo_controller_cpp/core/erizo_controller.cpp:783-897 | at most 11 lock calls of at most try_time + 1 attempts each, all of them made; unlocked on every return; counts safe whatever anyone loses; it succeeds exactly when its last section does, and fails only on a refused lock, a failed section or an eleventh not-ready one; a last section without lost calls gives the specified, settled room and succeeds exactly when it gets past its reads |
| Controller.ErizoController.RemoveBridgeStreamSub | erizo_controller_cpp/core/erizo_controller.cpp:939-979 | continues the close run past one marked subscriber |
| Controller.ErizoController.LowerBridge | erizo_controller_cpp/core/erizo_controller.cpp:954-977 | continues it through the lowered or removed bridge |
| Controller.ErizoController.DropSubscriber | erizo_controller_cpp/core/erizo_controller.cpp:1049-1072 | continues it through one deletion |
| Controller.ErizoController.RemoveBridgeStreamPub | erizo_controller_cpp/core/erizo_controller.cpp:981-1008 | continues it past one publisher |
| Controller.ErizoController.SweepSubscribers | erizo_controller_cpp/core/erizo_controller.cpp:1044-1073 | runs the nested loop of the close program to its end |
| Controller.ErizoController.SweepPublishers | erizo_controller_cpp/core/erizo_controller.cpp:1075-1088 | runs its publisher loop to its end |
| Controller.ErizoController.DeleteRecords | erizo_controller_cpp/core/erizo_controller.cpp:1090-1094 | runs its deletions, whose failures are ignored |
| Controller.ErizoController.CloseLocked | erizo_controller_cpp/core/erizo_controller.cpp:1033-1094 | is a run of the close program, calm when no call was lost, and then successful |
| Controller.ErizoController.RemoveClient | erizo_controller_cpp/core/erizo_controller.cpp:1020-1099 | with others at work around it: if its section ended, an own close with the section's result followed by both registration writes, whatever became of them, and ok exactly when nothing was lost; otherwise the lock was refused after all attempts or the close failed, and it wrote nothing; the lock is released on every path |
| Controller.ErizoController.HandleToken | erizo_controller_cpp/core/erizo_controller.cpp:684-741 | with others at work between its calls: the first write, the second if that is answered, the read of the streams if that is too, and success exactly when all three are; on success the stream list is a snapshot of the room's publishers, and the client is in both hashes unless a removal of it came meanwhile |
| Controller.ErizoController.RemoveExpireErizoController | erizo_controller_cpp/core/erizo_controller.cpp:1010-1018 | with other controllers at work before, between and after the removals, losing any calls: counts safe in all rooms; when the listing was answered every listed client was attempted, and ok is false exactly when an attempt was not whole; on success the state is cleaned up as History.CleanupComplete says, and with no deed of those clients nothing of them is left and the controller's hash is empty |
| Controller.ErizoController.RemoveAll | erizo_controller_cpp/core/erizo_controller.cpp:1016-1017 | goes on to the next client whatever became of the one before |
| Controller.ErizoController.CloseRecorded | erizo_controller_cpp/core/erizo_controller.cpp:1033-1094 | the section as one deed of the history, successful when it lost no call |
| Controller.ErizoController.Unregister | erizo_controller_cpp/core/erizo_controller.cpp:1096-1098 | both unlocked writes at the end of a removal, whatever becomes of them, with others in between |
| ClientHashes.PairedIffNeverTorn | erizo_controller_cpp/core/erizo_controller.cpp:695-706 | over every interleaving of single writes, lost or not: at all its idle moments a client is in its room's hash exactly when it is in its controller's, if and only if no episode of it ended with last effective writes that disagree |
| ClientHashes.AlwaysRegistered | erizo_controller_cpp/core/erizo_controller.cpp:695-706 | so a client whose own calls are answered and whose token does not overlap a removal is in both hashes or neither whenever nothing of it is in progress, and in no other hash |
| ClientHashes.TokenPairsIff | erizo_controller_cpp/core/erizo_controller.cpp:695-706 | exactly which lost calls of a token leave the client in one hash only |
| ClientHashes.RemovalPairsIff | erizo_controller_cpp/core/erizo_controller.cpp:1096-1098 | exactly which lost calls of a removal do |
| ClientHashes.LostAddClientToEC | erizo_controller_cpp/core/erizo_controller.cpp:702-706 | the state after a lost addClientToEC: in the room's hash, in no controller's |
| ClientHashes.TokenAroundRemoval | erizo_controller_cpp/core/erizo_controller.cpp:695-706 | a removal between the two writes of a token leaves the client in its controller's hash only |
| ClientHashes.SoundKeeps | erizo_controller_cpp/core/erizo_controller.cpp:1096-1098 | every write keeps the account of who is listed where |
| History.HandledMeetsSpec | erizo_controller_cpp/core/erizo_controller.cpp:743-1099 | a successful handler among others gives its specified, settled room, with records in the room of their client |
| History.PathFine | erizo_controller_cpp/core/erizo_controller.cpp:743-1099 | any history of successful handlers and of token and removal writes keeps all rooms settled and the registrations accounted for |
| History.PathSafe | erizo_controller_cpp/core/erizo_controller.cpp:743-1099 | with handlers that lose calls in it, counts stay safe in all rooms |
| History.TraceIffActs | erizo_controller_cpp/core/erizo_controller.cpp:684-897 | a client of which nothing was left has a trace after a deed if and only if the deed is its own token, publish or subscribe |
| History.StaysClearedIff | erizo_controller_cpp/core/erizo_controller.cpp:684-1099 | it stays without a trace through a whole history if and only if there is no such deed in it |
| History.PathMembers | erizo_controller_cpp/core/erizo_controller.cpp:702-706 | who enters a controller's hash enters it by a token |
| History.EnrolledIsListed | erizo_controller_cpp/core/erizo_controller.cpp:695-706 | after an answered token the client is in both hashes unless a removal came meanwhile |
| History.CloseClears | erizo_controller_cpp/core/erizo_controller.cpp:1020-1094 | a successful close leaves no stream and no subscription of the client in any room, settled or not |
| Traces.HandlerOnly | erizo_controller_cpp/core/erizo_controller.cpp:743-1099 | from any room, with any calls lost, a handler adds records of no client but its own |
| Traces.CloseLeavesNothing | erizo_controller_cpp/core/erizo_controller.cpp:1020-1094 | a close that succeeds leaves no publisher and no subscriber of its client, whatever state earlier lost calls had left the room in |
| History.PathPlaced | erizo_controller_cpp/core/erizo_controller.cpp:684-1099 | whatever calls are lost, every record is in the room of its client and every entry in the hash of its room or controller |
| History.EmptyFine | erizo_controller_cpp/core/erizo_controller.cpp:684-1099 | a system without rooms and clients is in order, so all this holds from the start |
| History.RemovedLeavesNothing | erizo_controller_cpp/core/erizo_controller.cpp:1020-1099 | after a removal, with anything before, inside and after it and whatever calls others lose, the client has a trace only if it acted after the removal, and is in its controller's hash only if it completed a token after it |
| History.CleanupComplete | erizo_controller_cpp/core/erizo_controller.cpp:1010-1018 | removing all clients listed under a controller, with any deeds of others in between and whatever calls those lose: traces only of clients that acted after their removal, and in the hash only clients that completed a token meanwhile, of those listed before only after their removal |
| History.CleanupEmpties | erizo_controller_cpp/core/erizo_controller.cpp:1010-1018 | if none of its clients acts meanwhile, nothing is left of them and the hash is empty |
| IpRangeTable.Comparators | erizo_controller_cpp/route/IP_TABLE.h:102-188 | < is the strict product order, > its converse, == containment one way or the other, and exactly one of the three holds |
| IpRangeTable.EqualIsNotTransitive | erizo_controller_cpp/route/IP_TABLE.h:102-126 | == is not transitive, so < is no strict weak order on all ranges |
| IpRangeTable.SortedMeans | erizo_controller_cpp/route/IP_TABLE.h:174-188 | in a sorted table both ends increase strictly and no range contains another |
| IpRangeTable.LowerBoundIs | erizo_controller_cpp/route/IP_TABLE.h:238-241 | a tree descent with < ends at the first entry not less than the key, for any shape of tree |
| IpRangeTable.FindIsScan | erizo_controller_cpp/route/IP_TABLE.h:238-241 | find with < alone returns what a linear scan with == returns |
| IpRangeTable.FindAddress | erizo_controller_cpp/route/IP_TABLE.h:240-241 | find(ip) returns the leftmost stored range that contains ip and misses exactly when none does |
| IpRangeTable.AdmitsIffIncomparable | erizo_controller_cpp/route/IP_TABLE.h:233-234 | an insert is accepted exactly when no stored range contains or is contained in the new one |
| IpRangeTable.InsertKeeps | erizo_controller_cpp/route/IP_TABLE.h:233-234 | the table stays sorted; an accepted entry is added and nothing else changes |
| IpRangeTable.InsertAnyShape | erizo_controller_cpp/route/IP_TABLE.h:233-234 | an insert into any shape of the same table is accepted alike and makes the same table |
| IpRangeTable.BuiltOnce | erizo_controller_cpp/route/IpTable.cpp:83-114 | a load has one result, however the map shapes its tree on the way |
| IpRangeTable.LoadSorted | erizo_controller_cpp/route/IpTable.cpp:83-114 | every table built by inserts, with the tree reshaped at any time, is sorted and holds only what was inserted |
| IpRangeTable.DisjointLoadKeepsAll | erizo_controller_cpp/route/IpTable.cpp:83-114 | disjoint ranges are all kept, in whatever order they are loaded and however the tree is reshaped |
| IpRangeTable.DisjointLookup | erizo_controller_cpp/route/IpTable.cpp:83-114 | and each address is then looked up in its own range |
| IpRangeTable.IpTable.Insert | erizo_controller_cpp/route/IP_TABLE.h:233-234 | the accepted case and the rejected case of an insert, on the stored tree |
| IpRangeTable.IpTable.GetValue | erizo_controller_cpp/route/IP_TABLE.h:244-259 | the value a scan finds, or the unknown defaults |
| IpLoader.ParseLine | erizo_controller_cpp/route/IpTable.cpp:86-112 | what a line says, as SkipsIff and FormatKeeps spell out |
| IpLoader.ReadsOnce | erizo_controller_cpp/route/IpTable.cpp:86-112 | a line says one thing |
| IpLoader.FormatReads | erizo_controller_cpp/route/IpTable.cpp:86-112 | a line written from clean fields with any delimiter is read back as those fields |
| IpLoader.FormatKeeps | erizo_controller_cpp/route/IpTable.cpp:95-113 | a line of clean fields with known names and addresses gives the range between its addresses with the codes of its operator and its area |
| IpLoader.SkipsIff | erizo_controller_cpp/route/IpTable.cpp:86-112 | a line is skipped if and only if it is blank, has fewer than four parts, has an unknown name or has an end that is no address |
| IpLoader.FileIsTold | erizo_controller_cpp/route/IpTable.cpp:83-114 | a file of such lines is read as its records, line by line, and no line stops the load |
| IpLoader.LoadedFile | erizo_controller_cpp/route/IpTable.cpp:83-114 | after a load of a file of such lines with disjoint ranges every address of a line is looked up with the codes of that line's operator and area |
| IpLoader.LoadLines | erizo_controller_cpp/route/IpTable.cpp:83-115 | the table after a load is that of inserting, in order, the ranges the lines give, with the tree reshaped after each |
| IpLoader.LoadedLookup | erizo_controller_cpp/route/IpTable.cpp:83-114 | after a load of disjoint ranges every address finds the names of its own line |
| StringUtil.FindFirstOf | erizo_controller_cpp/route/Utility.cpp:11-16 | the first delimiter at or after a position |
| StringUtil.Split | erizo_controller_cpp/route/Utility.cpp:8-22 | delimiter-free parts, one more than there are delimiters, that woven with the delimiters give back the input |
| StringUtil.SplitUnique | erizo_controller_cpp/route/Utility.cpp:8-22 | no other parts do |
| StringUtil.SpaceChars | erizo_controller_cpp/route/Utility.cpp:29-29 | the blank and the control characters from tab to carriage return count as white space |
| StringUtil.TrimLeft | erizo_controller_cpp/route/Utility.cpp:24-36 | drops the leading whitespace, but leaves an all-blank string unchanged |
| StringUtil.TrimRight | erizo_controller_cpp/route/Utility.cpp:38-57 | drops the trailing whitespace, all of an all-blank string |
| StringUtil.Trim | erizo_controller_cpp/route/Utility.cpp:59-62 | the string without its maximal leading and trailing whitespace, empty for all-blank input |
| StringUtil.TrimUnique | erizo_controller_cpp/route/Utility.cpp:59-62 | only one string is that |
| StringUtil.TrimIdempotent | erizo_controller_cpp/route/Utility.cpp:59-62 | trimming twice is trimming once |
| RpcRing.ExactlyOnce | erizo_controller_cpp/rabbitmq/amqp_rpc.cpp:76-190 | over every run of calls, replies and sweeps a call that met its slot is pending in exactly its slot and has not run, or is in no slot and has run exactly once |
| RpcRing.AnswerReaches | erizo_controller_cpp/rabbitmq/amqp_rpc.cpp:155-165 | a reply with the slot of a call runs that call's callback if and only if the call is still pending; a reply to a free slot changes nothing |
| RpcRing.DataOnlyByReply | erizo_controller_cpp/rabbitmq/amqp_rpc.cpp:131-166 | a callback is handed data by a reply to its slot and by nothing else |
| RpcRing.NullOnlyByFailure | erizo_controller_cpp/rabbitmq/amqp_rpc.cpp:81-92 | a callback is told of failure exactly when its call finds its slot in use or the sweep gives up on it |
| RpcRing.TurnedAwayIffBlocked | erizo_controller_cpp/rabbitmq/amqp_rpc.cpp:174-190 | a call is turned away if and only if another call of its slot is still pending |
| RpcRing.WrapKeepsSlot | erizo_controller_cpp/rabbitmq/amqp_rpc.cpp:174-174 | the slot of the nth call is n mod 256 across wrap-around of the 32-bit index |
| RpcRing.ConsecutiveDistinct | erizo_controller_cpp/rabbitmq/amqp_rpc.cpp:174-174 | any 256 consecutive calls use distinct slots |
| RpcRing.PendingIsYoung | erizo_controller_cpp/rabbitmq/amqp_rpc.cpp:79-92 | no pending call is older than the timeout by the clock of the last sweep of its slot |
| RpcRing.CompletesInTime | erizo_controller_cpp/rabbitmq/amqp_rpc.cpp:76-95 | while sweeps are at most P apart every call completes within timeout + P |
| RpcRing.EarlyIffStale | erizo_controller_cpp/rabbitmq/amqp_rpc.cpp:81-85 | when the sweep gives up on a call; it gives up on a young one exactly when the call took the slot after the sweep read its clock |
| RpcRing.FreshCallExpires | erizo_controller_cpp/rabbitmq/amqp_rpc.cpp:81-85 | a run in which that happens |
| RpcRing.PathLater | erizo_controller_cpp/rabbitmq/amqp_rpc.cpp:76-190 | no run takes back a callback, a visit or a slot |
| RpcRing.NextKeeps | erizo_controller_cpp/rabbitmq/amqp_rpc.cpp:76-190 | every step keeps the invariant behind these |
| RpcClient.AmqpRpc.DrawSlot | erizo_controller_cpp/rabbitmq/amqp_rpc.cpp:174-174 | draws the next call's slot |
| RpcClient.AmqpRpc.EnterSlot | erizo_controller_cpp/rabbitmq/amqp_rpc.cpp:176-190 | takes the slot or runs the callback at once, as the ring's step does |
| RpcClient.AmqpRpc.Rpc | erizo_controller_cpp/rabbitmq/amqp_rpc.cpp:168-202 | with other threads in between, the call meets its own slot once and its message is queued once, behind all that was queued before the call; what was queued stays queued, in its order |
| RpcClient.AmqpRpc.TakeSlot | erizo_controller_cpp/rabbitmq/amqp_rpc.cpp:174-190 | the call meets its own slot, with other threads between the draw and the visit |
| RpcClient.AmqpRpc.Post | erizo_controller_cpp/rabbitmq/amqp_rpc.cpp:192-201 | the message goes behind all that is queued |
| RpcClient.AmqpRpc.HandleCallback | erizo_controller_cpp/rabbitmq/amqp_rpc.cpp:131-166 | runs and frees a pending slot once; anything else runs nothing; the guard admits exactly one id that is no slot |
| RpcClient.AmqpRpc.SweepSlot | erizo_controller_cpp/rabbitmq/amqp_rpc.cpp:82-91 | expires a slot as the ring's step does |
| RpcClient.AmqpRpc.Sweep | erizo_controller_cpp/rabbitmq/amqp_rpc.cpp:79-92 | after one pass every call that was older than the timeout when the pass began has run its callback |
| RpcClient.AmqpRpc.SendAll | erizo_controller_cpp/rabbitmq/amqp_rpc.cpp:65-71 | messages leave in the order they were queued, none lost; then every call that met its slot has its message on the wire, but for calls about to queue it |
| TaskScheduler.InOnePlace | erizo_controller_cpp/thread/scheduler.cpp:23-78 | for any number of threads every scheduled task is in exactly one of queue, running thread and finished list, once |
| TaskScheduler.TakesEarliest | erizo_controller_cpp/thread/scheduler.cpp:43-44 | the task taken is earliest in the queue, and of equal times the one scheduled first |
| TaskScheduler.DrainCompletes | erizo_controller_cpp/thread/scheduler.cpp:26-68 | when all threads left under stop(true) alone, every task has run exactly once |
| TaskScheduler.DrainRunsAll | erizo_controller_cpp/thread/scheduler.cpp:26-68 | over the events of a run: if its only stops are stop(true), with no outside call of schedule after the first, then once all threads have left every task ever scheduled has run exactly once |
| TaskScheduler.TraceStops | erizo_controller_cpp/thread/scheduler.cpp:57-65 | stop(true) and stop(false) set their own flags and no other event does |
| TaskScheduler.TraceAsks | erizo_controller_cpp/thread/scheduler.cpp:70-78 | the tasks of a run are those of its schedule calls, with their times, in order |
| TaskScheduler.StopIsPrompt | erizo_controller_cpp/thread/scheduler.cpp:35-37 | a thread that acts after stop(false) leaves and starts nothing |
| TaskScheduler.StoppedStartsNothing | erizo_controller_cpp/thread/scheduler.cpp:26-37 | after stop(false) no task is started any more |
| TaskScheduler.DueTaskStarts | erizo_controller_cpp/thread/scheduler.cpp:32-47 | a free thread starts the first task when that is due, in its next two actions |
| TaskScheduler.WaitsForFirst | erizo_controller_cpp/thread/scheduler.cpp:26-34 | a free thread waits for the time of the first task, and without a limit only when there is none |
| TaskScheduler.NeverEarlyIffSingle | erizo_controller_cpp/thread/scheduler.cpp:28-47 | no run starts a task before its time if and only if there is at most one service thread |
| TaskScheduler.EarlyStart | erizo_controller_cpp/thread/scheduler.cpp:32-44 | with two or more threads, a run that starts a task early |
| TaskScheduler.SingleKeeps | erizo_controller_cpp/thread/scheduler.cpp:28-47 | a single thread's deadline never precedes the first task, whatever is inserted meanwhile |
| TaskScheduler.InsertOrdered | erizo_controller_cpp/thread/scheduler.cpp:70-78 | the queue stays in order of time and, among equal times, of schedule calls |
| TaskScheduler.NextKeeps | erizo_controller_cpp/thread/scheduler.cpp:23-78 | every step keeps order, conservation and what exits leave behind |
| SchedulerService.InsertTask | erizo_controller_cpp/thread/scheduler.cpp:75-75 | a multimap insertion: after every task that is not later |
| SchedulerService.Scheduler.AddTask | erizo_controller_cpp/thread/scheduler.cpp:70-78 | schedules as the state machine does |
| SchedulerService.Scheduler.RequestStop | erizo_controller_cpp/thread/scheduler.cpp:57-65 | sets the flag for its mode |
| SchedulerService.Scheduler.WaitForTask | erizo_controller_cpp/thread/scheduler.cpp:28-30 | the untimed wait |
| SchedulerService.Scheduler.WaitUntilDue | erizo_controller_cpp/thread/scheduler.cpp:32-34 | the timed wait, which reports a timeout only at or after its time |
| SchedulerService.Scheduler.Take | erizo_controller_cpp/thread/scheduler.cpp:43-44 | takes the first task of the queue as it is then |
| SchedulerService.Scheduler.Execute | erizo_controller_cpp/thread/scheduler.cpp:46-48 | the task runs without the mutex and is finished |
| SchedulerService.Scheduler.ServiceQueue | erizo_controller_cpp/thread/scheduler.cpp:23-55 | through any number of waits, all of them made, every action of the loop is a step of its thread; it takes and runs a task whenever it wakes with one due and at no other time; it ends only by exiting |
| SchedulerService.ServingNone | erizo_controller_cpp/thread/scheduler.cpp:18-21 | the thread count the destructor asserts is zero exactly when all threads have left |
| PeriodicTimer.NoDrift | erizo_controller_cpp/thread/worker.cpp:82-97 | round k aims at t0 + (k + 1) * period plus exactly the sum of the gaps between the two clock reads |
| PeriodicTimer.RequestsTarget | erizo_controller_cpp/thread/worker.cpp:86-97 | the requested delay leads to that target if it is not past, and is 0 otherwise |
| PeriodicTimer.LatenessForgotten | erizo_controller_cpp/thread/worker.cpp:90-96 | however late earlier rounds ran, the target is the same |
| PeriodicTimer.NeverAhead | erizo_controller_cpp/thread/worker.cpp:86-97 | with rounds that never run early, n rounds take at least n periods |

## Left out

- JSON encoding and parsing: records and messages are datatypes; a malformed request never reaches the model.
- RedisHelper: every call is taken to succeed or to report failure; an error that the client library does not report as -1 is not modelled.
- Locker.RedisLocker.TryLock: Redis commands of the lock are taken to answer; on a failed GET or GETSET the source returns true without the lock, and on a failed SETNX it sets the flag.
- Locker.RedisLocker.Lock: does not model the overflow of a negative try_time that is counted down for ever.
- Controller.ErizoController.HandleToken: which agent and erizo are allocated, and the constant parts of the reply.
- handleSubscribe sleeps before the jump that releases its lock for a retry; the model has no sleep, which counts towards the holding time that the lock bound is about.
- Commands to media servers are recorded as sent; their delivery and the notifications to browsers are not modelled.
- Heartbeat expiry: the decision that a controller has expired; the model starts when its cleanup is called.
- allocAgent, allocErizo and the thread pool: minimum search, fixed retry and round robin would add only easy members.
- IpTable: opening the file, inet_addr (a parameter), the default operator and area, and erase; IpRangeTable.IpTable.Insert requires from <= to as the key's assertion does.
- RpcClient.AmqpRpc.HandleCallback: what the access to slot 256 does is undefined and not modelled; nothing is claimed about which call a late reply was meant for beyond AnswerReaches.
- RpcRing: each visit to a slot is one step; that the guards at two places are temporaries is not modelled. The blocking rpc call with its three tries is left out.
- SchedulerService.Scheduler.ServiceQueue: follows the loop through a given number of waits, because the loop need not end; the wait's deadline is taken by value.
- stop's join and exceptions thrown by tasks.
- Worker's cancellation, its task queue and the truncation of delays to milliseconds.
- SimulatedWorker, sockets, connection set-up, logging and configuration.
