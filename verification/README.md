# A verified model of the hard parts of FoxBox

FoxBox connects devices in a home. This project models the parts of it that carry the most state and
branching, and proves what they are for:

- `Registry.dfy`, `Transact.dfy`, `Backend.dfy`, `Manager.dfy`: the device registry, four indexes over
  shared objects, as classes whose methods update them in place, with two-map inserts that roll back. On
  the heap every method is tied to what `Registry` and `Topology` say about the same call on values.
- `WatchTopology.dfy`: what the live watch index is for, over whole runs of completed calls.
- `WatchProtocol.dfy`: watches under every interleaving of clients, guards and the worker thread.
- `Selectors.dfy`: channels, selectors, the grouping of requests by adapter, and the merging of the answers.
- `RecordLayer.dfy`: the WebPush record layer over an uninterpreted authenticated cipher.
- `Compiler.dfy`, `RuleEngine.dfy`: the Thinkerbell compiler and the interpreter thread.
- `Middleware.dfy`: the two-track middleware chain of the HTTP framework.
- `Values.dfy`: the JSON form of values and ranges.
- `ManagedProcess.dfy`, `Escaping.dfy`: the restart and shutdown protocol of a child process; escaping.

Code that changes state is a class or a method with loops and is proved equal to a function of the old
state; the laws are lemmas about these functions. Protocols between threads are state machines, and their
laws hold in every state of every run. The order in which a hash map is walked is arbitrary: loops pick any
element that is left, and where an order shows in the result it is returned as a ghost value. A weak
reference to a watcher is modelled by its key, since the watch map holds the only lasting strong reference;
upgrading it looks the key up. A map that Rust borrows mutably is handed in and out.

What the proofs brought to light, each stated by a lemma below:

- A rule fires when *some* of its conditions is met (run.rs:445-450), while its documentation says *all*
  (run.rs:443-444, ast.rs:78-80). The two agree exactly for rules with one condition.
- The reader's record size counts the tag and the writer's does not. With the same number on both sides only
  a payload that fits one record with its padding and tag is read back. The reader's truncation test
  (crypto.rs:625) compares a bound already reduced by 16 with the full size, so it never fires: a stream cut
  between two records is read without complaint.
- `split_escaped` never splits at a backslash.
- A getter joins a watcher when *some* selector matches and leaves it when *some* selector does not. The two
  tests are opposites exactly for lists of selectors that all select the same channels.
- Removing a service leaves the guards of its getters with their watchers; such a getter is not watched when
  it comes back. A removal while the worker registers a watch for the getter does the same, exactly when the
  adapter then accepts.
- Adding tags to a getter fails an assertion that is on in every build (the macro at backend.rs:22-31 panics
  whatever its comment says) if a live watcher that knows the getter has no guard for it: the request is still
  on its way, or an adapter refused it, or the watch has the payload `Never`, for which no guard is ever kept.
  Two targets of one watch that match the same getter fail it too.
- Selectors of services look for the service tags that their channel selectors ask for among their own tags
  (selector.rs:247-261), so the conjunction of two can select a service that one of them does not.
- `fetch_values` pairs the answers with the types of the getters in the order of two hash maps; the check is
  right exactly for adapters whose getters, as far as asked for, have one type. `send_values` depends on the
  order of a hash map exactly when two adapters answer differently for one setter.
- A removed getter does not stop the timer its entry has started; its condition becomes met afterwards exactly
  if that timer expires.
- If `shutdown` finds that the child has exited before the restart loop has waited for it, it collects the child
  itself; the loop's wait then fails, its thread panics, and so does `shutdown`. Besides a spawn that fails this is
  the only way either of them panics.
- The start of a child's run is taken before the sleep that precedes it, so the restart delay never exceeds
  8 seconds and falls back to none after that.

## Model

| member | source | states |
|---|---|---|
| Registry.NestedIsDisjointUnion | components/taxonomy/src/backend.rs:361-374 | an index whose members sit in their parent's map, and in no other, is the disjoint union of these maps, with the same objects |
| Registry.FlatMapsDetermine | components/taxonomy/src/backend.rs:361-374 | indexes that agree are determined by the names of the adapters and the flat maps of services, getters and setters |
| Registry.AdaptersAreFound | components/taxonomy/src/backend.rs:1035-1040 | when the indexes agree the adapter of every getter and setter is registered: the branches for a missing one are never taken |
| Registry.WithAdapterAgrees | components/taxonomy/src/backend.rs:613-621 | a new adapter keeps the four indexes in agreement, is there, and changes nothing else |
| Registry.WithServiceAgrees | components/taxonomy/src/backend.rs:691-708 | a new service with a tag cell of its own is in the index, the agreement is kept, and nothing else changes |
| Registry.WithoutServiceAgrees | components/taxonomy/src/backend.rs:392-407 | a service can be found in its adapter; removing it removes exactly it and the channels that name it, and keeps the agreement |
| Registry.WithoutAdapterAgrees | components/taxonomy/src/backend.rs:630-642 | removing an adapter removes exactly it and the services and channels that name it, and keeps the agreement |
| Registry.WithGetterAgrees | components/taxonomy/src/backend.rs:756-784 | a new getter that names its service's adapter and shares its tag cell is in the index, the agreement is kept, and nothing else changes |
| Registry.WithoutGetterAgrees | components/taxonomy/src/backend.rs:797-815 | a getter can be found in its service; removing it removes nothing else and keeps the agreement |
| Registry.WithSetterAgrees | components/taxonomy/src/backend.rs:830-865 | the same for a new setter |
| Registry.WithoutSetterAgrees | components/taxonomy/src/backend.rs:874-891 | the same for the removal of a setter |
| Transact.RollbackRestores | components/taxonomy/src/transact.rs:95-105 | taking the inserted keys out again gives the map from before, when no key conflicted |
| Transact.InsertedKeepsOld | components/taxonomy/src/transact.rs:47-85 | a batch without conflicts leaves every entry that was there |
| Transact.InsertedHasBatch | components/taxonomy/src/transact.rs:47-85 | after a batch without conflicts the map has each of its pairs, and no keys but these and the old ones |
| Transact.InsertInMap.Start | components/taxonomy/src/transact.rs:47-85 | succeeds iff no key is in the map or occurs earlier in the batch; else the map is as before and the first conflicting key is reported |
| Transact.InsertInMap.Commit | components/taxonomy/src/transact.rs:88-91 | the transaction is marked as committed and its map is untouched |
| Transact.InsertInMap.Drop | components/taxonomy/src/transact.rs:94-105 | without a commit the original map comes back, with one the inserted map |
| Backend.State.AddAdapter | components/taxonomy/src/backend.rs:613-621 | fails exactly for a known id, changing nothing; else an adapter without services is there; the indexes agree |
| Backend.State.AddService | components/taxonomy/src/backend.rs:659-709 | the exact error in the coded order; every index unchanged on any error; else a fresh object with its own and the stored tags is in both maps |
| Backend.State.InsertService | components/taxonomy/src/backend.rs:691-708 | both maps get the service or neither, also when only the second one conflicts |
| Backend.State.AuxRemoveService | components/taxonomy/src/backend.rs:392-407 | the service and exactly its channels leave the three indexes, and no watcher is told |
| Backend.State.RemoveService | components/taxonomy/src/backend.rs:719-733 | succeeds exactly for a registered service; the inconsistent-state errors never occur; watchers keep their guards |
| Backend.State.RemoveAdapter | components/taxonomy/src/backend.rs:630-642 | succeeds exactly for a registered adapter; all its services and their channels are gone, and nothing else |
| Backend.State.InsertGetter | components/taxonomy/src/backend.rs:770-784 | both maps get the getter or neither |
| Backend.State.AddGetter | components/taxonomy/src/backend.rs:746-788 | the exact error, with indexes and watches unchanged; else it panics iff several targets of a live watcher select the new getter, and otherwise the getter is in both maps, sharing its service's tag cell, every live matching watcher is told and listed, and these are the registrations asked for |
| Backend.State.RemoveGetter | components/taxonomy/src/backend.rs:797-815 | succeeds exactly for a registered getter; every live watcher that listed it is told and loses its guard; the inconsistent-state errors never occur |
| Backend.State.InsertSetter | components/taxonomy/src/backend.rs:853-864 | both maps get the setter or neither |
| Backend.State.AddSetter | components/taxonomy/src/backend.rs:830-865 | the exact error with every index unchanged; else a fresh setter with the stored tags is in both maps |
| Backend.State.RemoveSetter | components/taxonomy/src/backend.rs:874-891 | succeeds exactly for a registered setter, and takes it out of both maps |
| Backend.State.ConnectWatcher | components/taxonomy/src/backend.rs:552-568 | over all targets of one watcher: it panics iff one selects the getter and the watcher is in the list, or two do; else the listener is told once iff one does, and a registration is asked for iff that one has a range |
| Backend.State.ConnectGetter | components/taxonomy/src/backend.rs:543-571 | over any order of the watchers: it panics iff one of those to be connected clashes; else those connected are exactly the live ones without a guard that match, each told once |
| Backend.State.DisconnectGetter | components/taxonomy/src/backend.rs:483-528 | over any order of the watchers: exactly those that are live and to be left are told and lose guard and place; dead ones are forgotten, dropped ones stay |
| Backend.State.GettersMayNeedRegistration | components/taxonomy/src/backend.rs:530-576 | connecting several changed getters panics iff one of them clashes to begin with, and else is connecting them one after the other |
| Backend.State.StartChannelWatch | components/taxonomy/src/backend.rs:1115-1164 | it panics iff the watcher is in the getter's list; else the watcher enters it, and one registration is asked for unless the payload is `Never` |
| Backend.State.AddGetterTags | components/taxonomy/src/backend.rs:954-975 | every selected getter has the tags, the number of selected getters is returned, it panics iff a getter they were news to clashes, and else these are connected |
| Backend.State.RemoveGetterTags | components/taxonomy/src/backend.rs:992-1007 | every selected getter has lost the tags and the watchers it no longer matches |
| Backend.State.RetagServices | components/taxonomy/src/backend.rs:903-941 | the services selected are those that match before the call, though their tags change during the loop; each has all of the tags after it, or none, and keeps its others; so every getter of theirs sees the new tags and no other does; no watcher is looked at |
| Backend.State.PrepareChannelWatch | components/taxonomy/src/backend.rs:1166-1190 | it panics iff two targets match one getter; else the watcher gets a fresh key, every matching getter lists it, and a registration is asked for exactly where the matching target has a range |
| Backend.State.DropGuard | components/taxonomy/src/manager.rs:443-452 | only the flag of the watch changes |
| Backend.State.StopWatch | components/taxonomy/src/backend.rs:1196-1226 | the watcher leaves the map and the lists of the getters it has guards for |
| Backend.State.RegisterWatches | components/taxonomy/src/backend.rs:1231-1328 | in some order each entry of a live watcher adds a guard, or tells the listener if the adapter refuses; entries of dropped or removed watchers do nothing |
| Backend.State.PrepareSendValues | components/taxonomy/src/backend.rs:1058-1113 | in any order of the setters, the request is the flat specification: per adapter, its setters with the last well-typed and the last ill-typed value addressed to them |
| Backend.State.PrepareFetchValues | components/taxonomy/src/backend.rs:1025-1054 | the request is the flat partition of the selected getters by adapter, with their types |
| Manager.AdapterManager.AddAdapter | components/taxonomy/src/manager.rs:69-71 | the indexes gain an empty adapter or nothing changes; what holds between calls is kept |
| Manager.AdapterManager.RemoveAdapter | components/taxonomy/src/manager.rs:80-82 | the adapter's getters leave the table, the indexes agree, and what holds between calls still does |
| Manager.AdapterManager.AddService | components/taxonomy/src/manager.rs:100-102 | succeeds exactly for a new service without channels of a known adapter whose tags can be read; the indexes agree and no watcher changes |
| Manager.AdapterManager.AddSetter | components/taxonomy/src/manager.rs:167-169 | the same for a new setter of a service of its adapter |
| Manager.AdapterManager.RemoveSetter | components/taxonomy/src/manager.rs:179-181 | the same for removing a setter |
| Manager.AdapterManager.RetagServices | components/taxonomy/src/manager.rs:208-228 | the state changes as the completed call says, for the services selected before; what holds between calls is kept |
| Manager.AdapterManager.WatchValues | components/taxonomy/src/manager.rs:348-366 | it panics iff two targets match one getter; else, whatever the adapters answer, the state changes as the completed call says; the indexes agree and all getters are settled again |
| Manager.AdapterManager.DropGuard | components/taxonomy/src/manager.rs:443-452 | the state changes as the completed call says when a guard is dropped, and what holds between calls is kept |
| Manager.AdapterManager.Release | components/taxonomy/src/manager.rs:394-418 | the same for the worker's release |
| Manager.AdapterManager.AddGetter | components/taxonomy/src/manager.rs:130-140 | the exact condition of success, all unchanged on an error; it panics iff the getter clashes; else, whatever the adapters answer, the state changes as the completed call says |
| Manager.AdapterManager.RemoveGetter | components/taxonomy/src/manager.rs:150-152 | succeeds exactly for a registered getter, with all unchanged otherwise, and the state changes as the completed call says |
| Manager.AdapterManager.AddGetterTags | components/taxonomy/src/manager.rs:251-261 | the same for adding tags, which panics iff a getter they were news to clashes |
| Manager.AdapterManager.RemoveGetterTags | components/taxonomy/src/manager.rs:279-281 | the same for removing tags |
| Manager.AdapterManager.RemoveService | components/taxonomy/src/manager.rs:113-115 | the service's getters leave the table, the indexes agree, and what holds between calls still does |
| Manager.AdapterManager.SendValues | components/taxonomy/src/manager.rs:326-345 | the results are those of one fold over the addressed adapters, whatever they answer |
| Topology.RunsAreExact | components/taxonomy/src/backend.rs:483-576 | after any run of completed calls without a panic, whatever adapters answer, the getters that list a live watcher are initial plus added minus removed; its guards are exactly those no adapter refused if all its targets ask for values, and none if none does; for a covered watcher they are exactly the registered getters that match |
| Topology.DoneAllExact | components/taxonomy/src/backend.rs:746-1007 | one completed call keeps all of this |
| Topology.LeavesExactly | components/taxonomy/src/backend.rs:503-512 | a covered watcher loses a registered getter exactly if the getter no longer matches |
| Topology.GettersAfter | components/taxonomy/src/backend.rs:746-815 | a call registers and removes no getter but the one it names |
| Topology.NewGetterView | components/taxonomy/src/backend.rs:746-788 | a new getter shows what it was added with |
| Topology.ViewsAfter | components/taxonomy/src/backend.rs:903-1007 | a getter shows all of the tags, or none, after a call that names its tags or those of its service, keeps its other tags and all else, and is untouched by any other call |
| Topology.WatchersAfter | components/taxonomy/src/backend.rs:334-359 | a call starts and releases no watcher but the one it names |
| Topology.ReleaseLeavesLists | components/taxonomy/src/backend.rs:1196-1226 | a release takes its watcher out of the lists of exactly the getters it has guards for |
| Topology.DroppedIsSilent | components/taxonomy/src/backend.rs:495-550 | over runs: a watcher whose guard is dropped is told nothing more and keeps its guards until its release, and then it is gone for good |
| Topology.WatchConcernsOnly | components/taxonomy/src/backend.rs:1166-1190 | a watch restricted to one id is listed by no other getter, asks for no other registration and is connected to no other later |
| Topology.DoneSettled | components/taxonomy/src/backend.rs:1126-1133 | after completed calls every live watcher that asks for values and is in a getter's list has its guard for it, or its listener was sent an error |
| Topology.ClashesExactly | components/taxonomy/src/backend.rs:1126-1133 | between calls the assertion fails for a getter iff a live watcher that matches it without a guard knows of it already, or matches with two targets |
| Topology.UnguardedExactly | components/taxonomy/src/backend.rs:1231-1328 | a watcher all of whose targets ask for values knows a getter without a guard iff an adapter refused it; one that asks for none has no guard |
| Topology.TagsPanicExactly | components/taxonomy/src/backend.rs:954-975 | adding tags between calls panics iff one of the getters they are news to now clashes so |
| Topology.TopologyWatchPanics | components/taxonomy/src/backend.rs:1140-1143 | adding tags panics if they are news to a getter that a live watcher, all of whose payloads are `Never`, knows of and matches |
| Topology.NewClashesExactly | components/taxonomy/src/backend.rs:543-571 | a new getter clashes iff several targets of a live watcher without a guard for it match |
| Topology.AcceptingRunsNeverPanic | components/taxonomy/src/backend.rs:1126-1133 | if adapters accept everything and watches have one target with a range, guards and lists agree after any run and adding tags never panics |
| Topology.ServiceRemovedExactly | components/taxonomy/src/backend.rs:392-407 | removing a service keeps a covered watcher exact iff none of its getters matches it |
| Topology.LeftGuardBlocksReturn | components/taxonomy/src/backend.rs:545-548 | a getter that comes back after its service was removed is watched iff it matches and no guard was left, that is, it did not match before or was refused |
| Selectors.BuildersRestrict | components/taxonomy/src/selector.rs:400-449 | the selector a client starts from selects every channel, and each way of restricting one adds exactly one test |
| Selectors.AndSelectsBoth | components/taxonomy/src/selector.rs:451-461 | the conjunction of two selectors selects exactly what both select |
| Selectors.WithKindRestricts | components/taxonomy/src/selector.rs:427-432 | restricting to a kind selects exactly the channels selected before that have the kind |
| Selectors.WatchTestsAgreeExactly | components/taxonomy/src/backend.rs:503-508 | the tests for connecting and disconnecting are opposites on all channels iff the selectors of the list select the same channels |
| Selectors.MatchingGrowsWithTags | components/taxonomy/src/selector.rs:463-480 | more tags on a channel never lose a match |
| Selectors.ServiceBuildersRestrict | components/taxonomy/src/selector.rs:187-219 | the same for selectors of services |
| Selectors.ServiceListsUnite | components/taxonomy/src/backend.rs:421-436 | no selectors select every service, several what each of them does |
| Selectors.ChosenExactly | components/taxonomy/src/backend.rs:409-438 | a call for one service id concerns that service and no other |
| Selectors.ServiceAndExactly | components/taxonomy/src/selector.rs:221-267 | two selectors of services both select a service iff their conjunction does and each asks of channels only service tags it asks of the service |
| Selectors.ServiceAndSelectsMore | components/taxonomy/src/selector.rs:221-267 | a conjunction that selects a service one of its parts does not |
| Requests.LastHitIsLast | components/taxonomy/src/backend.rs:1058-1113 | the value a setter gets is the payload of the last target that addresses it with that well- or ill-typedness |
| Requests.SendStep | components/taxonomy/src/backend.rs:1080-1109 | entering one target for one setter refines the flat specification |
| Requests.SendAdapters | components/taxonomy/src/backend.rs:1058-1113 | an adapter has a part in a send iff some target selects a setter of it |
| Requests.SendPartitions | components/taxonomy/src/backend.rs:1058-1113 | in it are exactly its setters selected with a value of their type, with the last such value, and those selected with another, with the types of the last such |
| Requests.KindsTake | components/taxonomy/src/services.rs:553-578 | the values that a setter of each kind is sent |
| Requests.FetchPartitions | components/taxonomy/src/backend.rs:1025-1054 | each selected getter occurs under its own adapter with its own type and nowhere else |
| Requests.FetchConcernsOnly | components/taxonomy/src/backend.rs:1025-1054 | a fetch restricted to one id asks for no other getter |
| Requests.Merge | components/taxonomy/src/manager.rs:334-344 | asking the adapters in any order and merging answers and failures is the fold over that order |
| Requests.MergedIsLast | components/taxonomy/src/manager.rs:334-344 | a setter has a result iff some adapter's part has one, and it is that of the last such adapter |
| Requests.MergeIsOrderFreeExactly | components/taxonomy/src/manager.rs:334-344 | the results are the same in all orders iff no two adapters' parts differ for one setter |
| Requests.ResultsExactly | components/taxonomy/src/manager.rs:334-344 | if adapters answer only for their own setters, the result of a setter is its last type failure, else its adapter's answer if there is one |
| Requests.ResultsAreOfAddressedExactly | components/taxonomy/src/manager.rs:334-344 | then a setter has a result iff some target addressed it, for exactly those setters that their adapter answers for when, and only when, it is asked |
| Requests.FetchCheckedExactly | components/taxonomy/src/manager.rs:298-318 | a fetched value is checked against its own getter's type in all orders of the two maps iff there are no more answers than getters and these have one type |
| WatchProtocol.KeysAreNeverReissued | components/taxonomy/src/backend.rs:334-359 | in every interleaving two watches have different keys |
| WatchProtocol.SilentAfterDrop | components/taxonomy/src/backend.rs:1266-1277 | no range event is forwarded to a listener once the guard is dropped |
| WatchProtocol.NothingSurvivesRelease | components/taxonomy/src/backend.rs:1196-1328 | once a release is handled no adapter registration of its key is alive, then or later, and requests that come late register nothing |
| WatchProtocol.ReleasedAreDropped | components/taxonomy/src/backend.rs:1212 | the assertion that a released watch is flagged never fails |
| WatchProtocol.NoRequestIsLost | components/taxonomy/src/manager.rs:384-418 | a live watcher in a getter's list is registered, or its request is on its way, or the adapter has refused it |
| WatchProtocol.QuietMeansRegistered | components/taxonomy/src/manager.rs:394-418 | when the worker has caught up only registered and refused ones are left |
| WatchProtocol.AddTagsPanicsExactly | components/taxonomy/src/backend.rs:1126-1133 | adding tags to any getters panics iff a watcher that now matches one is in its list with its request on its way or refused |
| WatchProtocol.EarlyTagsPanic | components/taxonomy/src/backend.rs:954-975 | a run in which this happens |
| WatchProtocol.RemovalLeavesGuardExactly | components/taxonomy/src/backend.rs:1231-1328 | over all runs: a live watcher that has left a getter's list holds a guard, once the worker is idle, iff an adapter has accepted its request since or before it was committed; without a refusal, iff the request was under way when it left |
| WatchProtocol.ReturnIsWatchedExactly | components/taxonomy/src/backend.rs:545-548 | a getter that comes back can be watched by a live watcher iff no guard is left |
| WatchProtocol.RemovalLeavesGuard | components/taxonomy/src/backend.rs:1231-1328 | a run in which a guard is left for a removed getter |
| WatchProtocol.RemovalDuringStart | components/taxonomy/src/backend.rs:1231-1328 | the steps from the middle of a registration that leave the guard, after which the getter is not watched when it returns |
| WatchProtocol.RegisteringIsReachable | components/taxonomy/src/manager.rs:394-418 | a run that reaches the state in which this happens |
| WatchProtocol.ListsChangeExactly | components/taxonomy/src/backend.rs:483-576 | a watcher enters a list iff a call puts it there, which then asks for its registration, and leaves it iff a call takes the getter away or its release is served while it has a guard |
| WatchProtocol.GuardsChangeExactly | components/taxonomy/src/backend.rs:483-528 | a guard is dropped iff a live watcher loses the getter by a call or its watcher is released, and stored iff a commit finds its watcher |
| WatchProtocol.RegistersLiveExactly | components/taxonomy/src/backend.rs:1252-1266 | a registration is started iff the watch is neither released nor flagged when its entry comes up |
| WatchProtocol.ServedInOrder | components/taxonomy/src/manager.rs:384-418 | the worker takes up everything it is sent in the order in which it was sent |
| WatchProtocol.WorkerAdvances | components/taxonomy/src/backend.rs:1231-1328 | a request of n entries keeps the worker busy for at most 2n + 1 steps, and nothing keeps it from them |
| WatchProtocol.ReleasesAreHandled | components/taxonomy/src/manager.rs:394-418 | a release that was sent is in the queue or handled, and no other is |
| WatchProtocol.EventsPassExactly | components/taxonomy/src/backend.rs:1266-1288 | the listeners get exactly the range events that come while the flag is not set, in order |
| WatchProtocol.RegistrationsAreNumbered | components/taxonomy/src/backend.rs:1290-1310 | registrations that are alive are told apart |
| WatchProtocol.LifeOfAWatch | components/taxonomy/src/manager.rs:394-418 | a run from the start of a watch through an event and a removal of tags to its handled release |
| Octets.XorOctetDigits | src/adapters/webpush/crypto.rs:575 | a binary digit of the exclusive or is set iff it is set in exactly one of the octets |
| RecordNonces.IncrementAddsOne | src/adapters/webpush/crypto.rs:579-588 | one step of the counter adds one to its big-endian value, wrapping after all octets are 255 |
| RecordNonces.CounterCountsRecords | src/adapters/webpush/crypto.rs:566-591 | after n records the twelve octets denote n modulo 2^96 |
| RecordNonces.NoncesRepeatExactly | src/adapters/webpush/crypto.rs:566-591 | two records share a nonce iff their numbers agree modulo 2^96 |
| RecordNonces.NonceCarriesNumber | src/adapters/webpush/crypto.rs:566-591 | the first nonce is the base nonce, and any nonce differs from it by the number of its record |
| RecordNonces.RecordNonce | src/adapters/webpush/crypto.rs:566-591 | the nonce is the base nonce xor the counter, and the array is incremented in place |
| RecordLayer.Encrypt | src/adapters/webpush/crypto.rs:661-723 | the loop ends, and the output is the padded pieces of the payload, each sealed under its own nonce |
| RecordLayer.Decrypt | src/adapters/webpush/crypto.rs:597-656 | the loop computes the reader of the stream, with every refusal of the code |
| RecordLayer.RecordLayout | src/adapters/webpush/crypto.rs:661-723 | number of records, size of all but the last, the last strictly shorter, total length |
| RecordLayer.RecordOnWire | src/adapters/webpush/crypto.rs:661-723 | where each record lies in the output and what it is: the sealing, under its own nonce, of one or two zero octets and its part of the payload |
| RecordLayer.ReadsPaddedRecord | src/adapters/webpush/crypto.rs:637-646 | the reader takes off the padding that one or two octets announce, and breaks down on a record shorter than that |
| RecordLayer.RefusesBareTag | src/adapters/webpush/crypto.rs:604-607 | what is left of a stream is refused if it, or the record size, is not more than a tag |
| RecordLayer.RoundTrip | src/adapters/webpush/crypto.rs:597-723 | with 16 octets more for the reader, decryption gives the payload back |
| RecordLayer.ReadsRecordPrefix | src/adapters/webpush/crypto.rs:597-656 | the first k records are read as the first k times the record capacity of the payload |
| RecordLayer.TruncationTestNeverFires | src/adapters/webpush/crypto.rs:604-627 | the reduced bound never equals the record size |
| RecordLayer.TruncationGoesUnnoticed | src/adapters/webpush/crypto.rs:597-656 | a stream cut after k records is read as a prefix, which is the whole payload iff that fits k records |
| RecordLayer.SameRecordSizeReads | src/adapters/webpush/crypto.rs:597-656 | with one size on both sides a payload that fits one record with padding and tag is read back, for any sound cipher |
| RecordLayer.SameRecordSizeExactly | src/adapters/webpush/crypto.rs:597-656 | with one size on both sides the payload is read back iff it so fits, and the stream refused iff not, for a sound cipher that opens no other beginning of the stream than its first record |
| RecordLayer.SoundCipherExists | src/adapters/webpush/crypto.rs:637-640 | for every payload, key and nonce there is a cipher that meets all of this |
| Compiler.Map | components/thinkerbell/src/util.rs:4-11 | the loop is the error-stopping map |
| Compiler.MapAllExactly | components/thinkerbell/src/util.rs:4-11 | it succeeds iff every element does, element by element, and else reports the first failure |
| Compiler.ScriptCompilesExactly | components/thinkerbell/src/compile.rs:119-200 | compilation succeeds iff all non-emptiness and type checks hold, and changes only the selectors |
| Compiler.ErrorsAreTrue | components/thinkerbell/src/compile.rs:119-200 | a reported error names a fault of the first rule that is not good |
| Compiler.RestrictedSelectsKind | components/thinkerbell/src/compile.rs:167-171 | compiled selectors select exactly the channels the source selects that have the stated kind |
| Compiler.CompiledStatementIsWellTyped | components/thinkerbell/src/compile.rs:181-200 | in any registry a compiled statement sends its value to exactly these setters and fails for none with a type error |
| RuleEngine.ExecutionTask.Serve | components/thinkerbell/src/run.rs:294-397 | one turn of the message loop is the specified step, in every branch |
| RuleEngine.ExecutionTask.UpdateConditions | components/thinkerbell/src/run.rs:401-479 | sets, match, rule and statements change as specified for one getter |
| RuleEngine.RunsAreConsistent | components/thinkerbell/src/run.rs:425-457 | in every state of every run a match is met iff its set is not empty and a rule iff the aggregate of its matches holds |
| RuleEngine.StepFiresOnRise | components/thinkerbell/src/run.rs:453-475 | a step runs a rule's statements, all once and in order, iff the aggregate rises in it |
| RuleEngine.FiresOncePerRisingEdge | components/thinkerbell/src/run.rs:401-479 | over whole runs, for any aggregate, the statements have been run once per rising edge |
| RuleEngine.CodedAggregateIsDocumentedExactly | components/thinkerbell/src/run.rs:441-450 | "some match" and "all matches" agree for all inputs iff there is one match |
| RuleEngine.StopIsFinal | components/thinkerbell/src/run.rs:296-303 | over runs: after a stop is served nothing is, no rule changes, nothing is sent or reported, and no timer is live |
| RuleEngine.RunsUntilStopped | components/thinkerbell/src/run.rs:294-303 | a script runs as long as no stop was served |
| RuleEngine.StopsOnRequest | components/thinkerbell/src/run.rs:296-303 | a run that stops |
| RuleEngine.QueueKeepsOrder | components/thinkerbell/src/run.rs:294-397 | without durations, events delivered = updates applied, then updates queued, then events queued: two hops never reorder |
| RuleEngine.AppliedDecides | components/thinkerbell/src/run.rs:401-439 | the met sets are those of the updates applied so far |
| RuleEngine.MetSetIsLastChange | components/thinkerbell/src/run.rs:408-424 | a getter is in a met set iff an entry of it was followed by no exit or removal |
| RuleEngine.SomeMetIsGrounded | components/thinkerbell/src/run.rs:280-291 | under the coded aggregate no rule starts out met, so the theorems on edges apply to it |
| RuleEngine.DrainedQueueIsUpToDate | components/thinkerbell/src/run.rs:294-439 | with the queue drained the met sets are those of the delivered events |
| RuleEngine.OneTimerPerRule | components/thinkerbell/src/run.rs:365-373 | in every state of every run a rule has at most one live timer |
| RuleEngine.TimerOrigin | components/thinkerbell/src/run.rs:337-392 | a live timer was started by an entry of the triple it stands for, and nothing touched its rule's timer since |
| RuleEngine.TimersAreReported | components/thinkerbell/src/run.rs:363-385 | over runs: as many timers were started as reported, none is reported cancelled before it is reported started, and the last report about a rule is a start iff it holds a guard |
| RuleEngine.TimerReportsExactly | components/thinkerbell/src/run.rs:363-385 | which step reports a start or an end for which condition |
| RuleEngine.ErrorsAreReported | components/thinkerbell/src/run.rs:309-317 | over runs: exactly the initialization errors served are reported, in order |
| RuleEngine.TimerExpiresOnce | components/thinkerbell/src/run.rs:359-368 | over runs: a timer that has expired is not live again |
| RuleEngine.EnqueuedIsAppended | components/thinkerbell/src/run.rs:294-397 | a step takes the served message from the head of the queue and appends exactly the messages listed for it |
| RuleEngine.MetUpdatesComeFromTimers | components/thinkerbell/src/run.rs:337-392 | with a duration a "met" update enters the queue only from such a timer |
| RuleEngine.MetAfterRemovalExactly | components/thinkerbell/src/run.rs:318-332 | over all runs: after a getter's removal is served, and no later event of it, it is in the met set of the drained state iff a timer that was live for it then has expired |
| RuleEngine.NotMetAfterExit | components/thinkerbell/src/run.rs:318-332 | after an exit, in contrast, it is not |
| RuleEngine.RemovalRun | components/thinkerbell/src/run.rs:318-332 | a run that reaches a removal with such a timer live |
| RuleEngine.RemovalLeavesTimer | components/thinkerbell/src/run.rs:318-332 | the steps from there in which the timer makes the condition met again |
| Middleware.Chain.Link | iron-fork/src/middleware/mod.rs:153-160 | a pair is appended to befores and afters |
| Middleware.Chain.LinkBefore | iron-fork/src/middleware/mod.rs:163-168 | a before is appended, and the rest unchanged |
| Middleware.Chain.LinkAfter | iron-fork/src/middleware/mod.rs:171-176 | an after is appended, and the rest unchanged |
| Middleware.Chain.LinkAround | iron-fork/src/middleware/mod.rs:187-193 | the handler is replaced by the wrapped one, and the rest unchanged |
| Middleware.Chain.Handle | iron-fork/src/middleware/mod.rs:196-208 | handling is one fold over the befores, the handler iff no error, one fold over the afters |
| Middleware.Chain.ContinueFromBefore | iron-fork/src/middleware/mod.rs:261-277 | from a position on, with no error pending, it is the rest of the same folds |
| Middleware.Chain.FailFromBefore | iron-fork/src/middleware/mod.rs:212-229 | the same with an error pending |
| Middleware.Chain.ContinueFromHandler | iron-fork/src/middleware/mod.rs:280-287 | the same from the handler on |
| Middleware.Chain.FailFromHandler | iron-fork/src/middleware/mod.rs:232-240 | the same past the handler with an error pending |
| Middleware.Chain.ContinueFromAfter | iron-fork/src/middleware/mod.rs:290-306 | the same among the afters with a response |
| Middleware.Chain.FailFromAfter | iron-fork/src/middleware/mod.rs:243-258 | the same among the afters with an error |
| Middleware.EachMiddlewareOnce | iron-fork/src/middleware/mod.rs:196-306 | each before and after is called exactly once, in order, on the track reached, and the handler iff no error is pending; each is handed the request and the response or error that the call before it gave back, and the chain gives back what the last one did |
| Values.ValueRoundTrip | components/taxonomy/src/values.rs:1434-1555 | parsing inverts printing iff the value is representable: colours in range, calendar conversions exact, at any depth |
| Values.RangeRoundTrip | components/taxonomy/src/values.rs:1807-1868 | the same for ranges |
| Values.ParsesExactly | components/taxonomy/src/values.rs:1434-1529 | the parser accepts exactly the documents that spell a value, in any accepted spelling and at any depth, and gives that value |
| Values.RangeExactly | components/taxonomy/src/values.rs:1807-1855 | the same for ranges |
| Values.WholeNumbersAreFloats | components/taxonomy/src/parse.rs:254-265 | wherever a number is expected a whole number is read as the float it equals |
| Values.OtherSpellings | components/taxonomy/src/parse.rs:266-320 | the accepted spellings of the unit value, flags, the empty array and an array of one |
| Values.PrintsPlainly | components/taxonomy/src/values.rs:1531-1555 | of these spellings the one that is printed |
| Values.ParseValueArray | components/taxonomy/src/parse.rs:297-312 | the loop of the array parser stops at the first failure and else parses every element in order |
| Values.RangeTypeExactly | components/taxonomy/src/values.rs:1887-1910 | a range has a type iff all its bounds have it |
| RestartDelays.Backoff.NextBackoff | src/managed_process.rs:52-76 | the new count, start and number, and the delay, are as specified for the clock's readings |
| RestartDelays.DelayIsHalfSquare | src/managed_process.rs:52-76 | after any exits the delay is half the square of the number kept, or none; every exit is counted and the start is the last reading of the clock |
| RestartDelays.DelaysAreBounded | src/managed_process.rs:21-76 | with the threshold of 5 seconds delays are 0, 2, 4 or 8 seconds, and none follows 8 |
| RestartDelays.DelaysAreReached | src/managed_process.rs:52-76 | each of these delays comes about |
| ManagedProcess.OneChild | src/managed_process.rs:111-137 | in every interleaving at most one child is alive, it is the last spawned, and none when the loop has ended |
| ManagedProcess.NoSpawnAfterKill | src/managed_process.rs:111-137 | once the kill signal is set nothing is spawned, nor is a spawn tried |
| ManagedProcess.ReadPidIsFinal | src/managed_process.rs:175-191 | the id that shutdown reads is that of the last child ever, and if there is none no child runs then or later |
| ManagedProcess.SignalsLastChild | src/managed_process.rs:193-222 | the signal goes to the last child spawned |
| ManagedProcess.ShutdownIsComplete | src/managed_process.rs:175-228 | the loop ends only after the kill signal; when shutdown has returned the loop has ended, no child is alive, and the stored id is none |
| ManagedProcess.PanicsExactly | src/managed_process.rs:111-222 | over all interleavings the loop panics, or is about to, iff a spawn failed or shutdown collected the child; shutdown panics in no other case and returns in none of these |
| ManagedProcess.CollectingPanics | src/managed_process.rs:193-228 | a run in which shutdown collects the child and panics |
| ManagedProcess.PoisonedExactly | src/managed_process.rs:115-131 | the locks are poisoned iff a spawn has failed, and then shutdown panics without setting the signal |
| ManagedProcess.KillsRunningExactly | src/managed_process.rs:193-222 | the signal is sent iff the child is found running |
| ManagedProcess.KilledNoneRuns | src/managed_process.rs:212-222 | once it is sent no child runs any more |
| ManagedProcess.GoneHaveDied | src/managed_process.rs:133 | a child is collected only after it has exited or was sent the signal |
| ManagedProcess.NeverStuck | src/managed_process.rs:111-191 | the loop can go on, or shutdown can with the lock it waits for, unless a running child is awaited |
| ManagedProcess.EndsWithinFiveSteps | src/managed_process.rs:108-137 | after the kill signal the loop's thread takes at most five more steps |
| ManagedProcess.ShutdownTakesSevenSteps | src/managed_process.rs:175-228 | shutdown takes at most seven steps in any interleaving |
| Escaping.Escape | src/utils.rs:186-195 | the loop puts a backslash before every backslash and every listed character |
| Escaping.Unescape | src/utils.rs:198-211 | the loop reads a backslash as a mark on the next character |
| Escaping.SplitEscaped | src/utils.rs:214-233 | the loop cuts at separators without a mark |
| Escaping.UnescapeInvertsEscape | src/utils.rs:186-211 | unescaping undoes escaping for every string and set of characters |
| Escaping.SplitInvertsJoin | src/utils.rs:214-233 | splitting the join of protected parts gives the parts back |
| Escaping.SplitRoundTripExactly | src/utils.rs:186-233 | it does so iff, for a backslash, there is one part, and for any other separator, every part that holds it escapes it |
| Escaping.LoneMarkIsLost | src/utils.rs:198-233 | a backslash at the very end marks nothing and is lost |

## Left out

- FFI and cryptographic primitives: the cipher is any pair of functions of which one undoes the other, with equal lengths and a tag of 16 octets.
- RecordLayer.SameRecordSizeExactly: the refusal assumes that under the first nonce the cipher opens nothing the stream starts with but the first record, as a cipher can open a forgery by chance; `RecordLayer.SameRecordSizeReads` does not.
- RecordLayer.Decrypt: whether octets are valid UTF-8 is a parameter.
- HTTP, web sockets, TLS, DNS, SQLite, configuration, the adapters themselves, and all user interfaces.
- Backend.State.AddService: the answer of the tag database is a parameter, `Unreadable` standing for any error; writing tags to the database is not part of the model. Service properties are not either.
- Backend.State.RetagServices: writing the tags to the database.
- Backend.State.PrepareChannelWatch: the range that a registration carries, and the locks that a panic poisons: after a panic nothing is promised.
- Backend.State.RegisterWatches: which entries the adapters refuse is a parameter; requests are sets of entries, not grouped by adapter, and an adapter answers once for each entry.
- Topology.RunsAreExact: the last part covers live watchers whose selectors agree and ask for no service tag; the removal of services and adapters is left out of the runs, and `Topology.ServiceRemovedExactly` states its effect.
- WatchProtocol.NoRequestIsLost: which watchers match is a parameter of each step, watches have one target with a range, and dropping a guard is allowed as soon as its key exists, which gives more interleavings than the code has.
- WatchProtocol.SilentAfterDrop: testing the flag and passing the event on are one step.
- Manager.AdapterManager.SendValues: what the adapters answer is a function of their part of the request.
- Requests.FetchCheckedExactly: the rest of `fetch_values`, which merges the checked answers as `send_values` does.
- Tags of setters; `get_services`; `State::stop`.
- Compiler: source positions and names in errors.
- RuleEngine.ExecutionTask.Serve: the answers of `send_values` in `Sent` events and the length of a duration; a timer may expire at any time while it is live, and a stopped script serves no more.
- Values.ValueRoundTrip: floats are opaque reals, and the conversions of durations and time stamps are functions of which nothing is assumed; error paths and messages are not modelled. `as_u64` of the JSON library is not part of this model.
- ManagedProcess.SignalsLastChild: the reuse of process ids by the operating system.
- RestartDelays.DelaysAreBounded: times are natural numbers of nanoseconds; the 64-bit counters cannot wrap, as the number kept never exceeds four and a restart count would need 2^64 exits.
- Middleware: thread safety bounds and the fields of requests; a middleware is any function from a request to a request and an outcome.
