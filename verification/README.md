# go-hollow, modelled and proved in Dafny

go-hollow replicates a versioned in-memory dataset.  A producer runs cycles, keeps
an identity per primary key, and stores each new version as a snapshot or as a delta
to the version before.  A consumer plans a walk through the stored blobs and rebuilds
the data.  Announcers tell consumers about new versions.

The project models that code and proves what it guarantees.  `dafny verify
dfyconfig.toml` checks everything.

## How the model is laid out

| file | what it holds |
|---|---|
| `Basics`, `Sorting` | payloads and record lists, finite sets and lists, the exchange sort over any strict total order |
| `Deltas`, `Positional` | delta sets, merging per ordinal, the two meanings of a delta (by ordinal, by list position) |
| `WriteEngine` | identity map, population, the delta of a cycle, shards |
| `Digests` | UTF-8 and the input of the data digest |
| `BlobStore`, `Production`, `Consumption` | store and planner, one producer cycle, one consumer refresh |
| `History`, `Resharding` | what a cycle does to versions, store, digest and diff base, what it answers and announces, and to shards |
| `Producing` | the producer object, against the cycle on values |
| `Walking`, `Replication` | refreshing along a store in general, then whole runs for types without a primary key |
| `PrimaryKeys`, `KeyedHistory`, `KeyedRuns`, `GrowOnly` | types with a primary key: one cycle, one stored version, whole runs, runs in which list positions stay equal to ordinals |
| `Reordering` | a run that ends in a delta nobody can read |
| `Announcer`, `AnnouncerProtocol`, `Feed` | the two announcers, with every interleaving of their steps |
| `Schemas`, `SchemaOrder` | schema equality and hashing, topological sorting |
| `LegacyDiff`, `Indexes` | the legacy map diff and its way through storage, indexes against scans |

Where the code changes objects step by step there is a class or a method with a loop
(`WriteStateEngine`, `Producer`, `Consumer`, `ReadStateEngine`, `InMemoryBlobStore`,
`DeltaSet`, `IdentityMap`, `GoroutineAnnouncer`, `InMemoryFeed`, the sort, the index
builders).  Each is proved against a function on values, and the theorems are about
those functions: a producer state goes through `Production.Cycle`, a replica through
`Consumption.Refresh`, an announcer through `AnnouncerProtocol.Step`.

## What is assumed of things the model does not look into

- A Go value is a `Payload`: its type name, its `%v` text and the text of the fields a
  key can be read from.  Values count as equal when their texts are equal, as in
  `valuesEqual`.  Wrapped and bare records are compared by their values.
- The md5 digest tells different inputs apart, so it is identified with its input: for
  each type name in order the name, the record count in eight bytes and the record texts
  run together, in UTF-8.  Two states that read differently can have the same input, and
  the theorems say exactly when.
- Snapshots and non-empty deltas come back from storage as they went in.  An empty
  delta is stored as no bytes, which do not decode.
- The hash that spreads keys over shards is any function of the key.
- Go map iteration is a choice of any order (`Basics.InSomeOrder`).
- Version numbers, ordinals and lengths are unbounded, except the 64-bit schema hash
  and the 32-bit record total, which wrap.

## Where the code keeps less than its documentation promises

- The consumer replays a delta by list position, although the write engine addresses
  it by ordinal.  For types without a primary key that is exact if and only if the
  list shrinks by at most one record (`Positional.ReplayDiffExact`); a larger shrink
  leaves every other dropped record behind.  For keyed types it is exact if and only if
  the ordinals in use keep their places: none is left out but the last, and new ones come
  in only while all are in use (`GrowOnly.KeyedReplayExact`, `GrowOnly.CycleReplayExact`).
- A cycle with unchanged data is recognised by a digest that cannot tell
  `["ab", "c"]` from `["a", "bc"]` (`Digests.DigestCollides`, `Digests.DigestExact`).
- That digest compares lists in order, the delta of a keyed type compares by ordinal.  So
  a cycle that only reorders keyed records is published as a delta of no bytes
  (`KeyedRuns.DecodesExactly`, `Reordering.ReorderingStalls`).  A refresh arrives if and
  only if the deltas from the newest snapshot on its way decode, so the next snapshot
  repairs it (`Walking.RefreshEnds`, `Replication.RunArrivesExactly`).
- An empty, rejected or unstorable cycle moves the state the next delta is measured
  against (`History.BaseKept`), and a snapshot that could not be stored still resets
  the snapshot interval (`History.StoreShapeKept`).
- Without pins subscribers never see a version go back; with pins they do, exactly when
  some step sends one a lower version than its last (`AnnouncerProtocol.RunOrder`).
- Composite keys are joined with `|`, so keys whose parts contain it collide, exactly
  when the pieces between bars agree (`Indexes.JoinEqual`).
- Schema comparison is not symmetric, and does not imply equal hashes, when a field
  name repeats (`Schemas.EqualSymmetric`, `Schemas.RepeatedFieldName`); it never looks
  at the primary key.

## Model

| member | source | states |
|---|---|---|
| Sorting.ExchangeSort | schema/schema.go:116-123 | the double loop ends with the one sorted arrangement of its input, for any strict total order |
| Sorting.ArrangeCanonical | schema/schema.go:116-123 | equal multisets have one sorted arrangement |
| Sorting.StringOrder | schema/schema.go:119 | string comparison is a strict total order |
| Sorting.StringLessMeans | schema/schema.go:119 | a text is below another if and only if it is a proper prefix or has the lower code point where they first differ |
| Deltas.DeltaSet.AddRecord | internal/delta.go:45-60 | exactly one record is appended to the type's list |
| Deltas.DeltaSet.IsEmpty | internal/delta.go:63-70 | true exactly when every type's list is empty |
| Deltas.DeltaSet.GetChangeCount | internal/delta.go:83-89 | the sum of all list lengths |
| Deltas.DeltaSet.OptimizeDeltas | internal/delta.go:92-96 | every type's list is replaced by its merged list |
| Deltas.OptimizeTypeDelta | internal/delta.go:98-134 | group, reduce and sort give the one merged list, whatever order the groups are visited in |
| Deltas.OptimizedUnique | internal/delta.go:129-133 | two lists with increasing ordinals and the same surviving record per ordinal are equal |
| Deltas.OptimizeShape | internal/delta.go:98-134 | increasing ordinals, exactly the ordinals of the input, and merging again changes nothing |
| Deltas.OptimizeKeepsMeaning | internal/delta.go:112-126 | merging keeps the ordinal-addressed meaning on every table if and only if each deleted ordinal ends in a delete |
| Deltas.OptimizeMapIdempotent | producer/producer.go:285-309 | the second merge in a store call changes nothing, and merging never empties or fills a delta set |
| Positional.DiffExactByOrdinal | internal/state.go:448-503 | read by ordinal, the positional diff turns the previous list into the current one, always |
| Positional.DiffEmpty | internal/state.go:465-502 | the diff is empty if and only if both lists read the same |
| Positional.DiffOptimized | internal/delta.go:98-134 | merging leaves a positional diff unchanged |
| Positional.AlignedOneExact | consumer/consumer.go:269-287 | one replayed record means the same by position and by ordinal if and only if it appends at the end, updates in range, or deletes the last position or beyond |
| Positional.AlignedRefines | consumer/consumer.go:269-287 | on aligned deltas the replay refines the ordinal-addressed meaning |
| Positional.ReplayDiff | consumer/consumer.go:269-287 | replaying a diff gives the current list followed by previous[c+1], previous[c+3], ... |
| Positional.SurvivorsAt | consumer/consumer.go:279-286 | there are floor((p-c)/2) survivors, and which they are |
| Positional.ReplayDiffExact | consumer/consumer.go:269-287 | the replay is exact if and only if p <= c + 1 |
| WriteEngine.IdentityMap.GetOrCreateOrdinal | internal/state.go:171-189 | a known key keeps its ordinal; a new one gets the next free ordinal and nothing else changes |
| WriteEngine.IdentityMap.GetOrdinal | internal/state.go:192-202 | the ordinal of a key, or none |
| WriteEngine.AssignKeepsNumbered | internal/state.go:171-189 | per type the ordinals stay an injective numbering of exactly 0 .. n-1, and none ever changes |
| WriteEngine.WriteStateEngine.PrepareForCycle | internal/state.go:238-252 | the current state becomes the previous one; state and delta start empty; identities stay |
| WriteEngine.WriteStateEngine.HasValueChanged | internal/state.go:507-540 | whether the value reads differently from the previous record with its ordinal |
| WriteEngine.WriteStateEngine.AddWithPrimaryKey | internal/state.go:551-594 | identity, shard, record and delta record of one value; an unreadable key changes nothing |
| WriteEngine.WriteStateEngine.Add | internal/state.go:27-48 | a value whose key cannot be read is stored bare |
| WriteEngine.WriteStateEngine.IsEmpty | producer/producer.go:146-148 | true exactly when no type has a record |
| WriteEngine.WriteStateEngine.CalculateDeletesForType | internal/state.go:385-422 | appends a delete for each previous record whose key is missing now, in order |
| WriteEngine.WriteStateEngine.GenerateDeltasForNonPKTypes | internal/state.go:426-504 | appends the positional diff of each current type without a key; without a previous state every record is an addition |
| WriteEngine.WriteStateEngine.CalculateDeletes | internal/state.go:371-383 | both together, for any order the types are visited in |
| WriteEngine.CalculatedAt | internal/state.go:371-383 | a type's delta after the cycle is what population recorded followed by its omissions or its diff |
| WriteEngine.WriteStateEngine.RecomputeShardAssignments | internal/state.go:328-356 | shard numbers of wrapped records with readable keys are recomputed, nothing else |
| WriteEngine.WriteStateEngine.PerformResharding | producer/producer.go:244-260 | shard counts of oversized types, then all shard numbers |
| Resharding.ReshardFits | producer/producer.go:244-260 | afterwards every type has at most shards * target records, and a type just resharded has more than (shards - 1) * target |
| Resharding.ReshardPlaces | internal/state.go:313-356 | every wrapped keyed record is moved to the shard congruent to its key's hash modulo the shard count, shard 0 without a stored count, and is otherwise unchanged, for any target but 0 |
| Resharding.ReshardCounts | producer/producer.go:247-256 | exactly the types with more records than the target get a new count, at least two, and two for a negative target |
| Resharding.RunPlaced | internal/state.go:551-594 | over any cycles, however they end, every keyed record of the state is in the shard of its key's hash under the counts of that moment |
| Resharding.CycleFits | producer/producer.go:159-172 | a resharding cycle that gets past the identity test leaves shards that hold its records with none to spare; any other leaves the counts alone |
| BlobStore.InMemoryBlobStore.Store | blob/blob.go:83-99 | the blob replaces the one under its key in its own map; an unknown type is an error and changes nothing |
| BlobStore.RetrievesLastSnapshot | blob/blob.go:83-105 | after any sequence of stores a version has a snapshot if and only if one was stored, and it is the one stored last |
| BlobStore.RetrievesLastDelta | blob/blob.go:83-111 | the same for the delta from a version |
| BlobStore.RetrievesLastReverse | blob/blob.go:83-117 | the same for the reverse delta to a version |
| BlobStore.InMemoryBlobStore.ListVersions | blob/blob.go:126-145 | the snapshot versions, each once, increasing |
| BlobStore.AnchorIsNewest | consumer/consumer.go:153-159 | a walk back ends at the newest snapshot in (from, to] if there is one, otherwise at from |
| BlobStore.PlanCorrect | consumer/consumer.go:149-170 | planning fails if and only if a delta above that anchor is missing; otherwise the chain starts there and is gap-free up to the target; it is empty when to <= from |
| Producing.Producer.RunCycle | producer/producer.go:127-204 | told from what the cycle is given: a publishing one returns and announces the next version and has stored it, as a snapshot or as a delta from the version before; no other announces, stores or counts, and each answers the unchanged version or 0, with or without an error |
| Producing.Producer.Store | producer/producer.go:262-327 | snapshot or merged delta, what is stored, what a serializer error leaves behind |
| Producing.Producer.Accepted | producer/producer.go:174-181 | a cycle is accepted exactly when no validator failed |
| Producing.Producer.CalculateDataHash | producer/producer.go:206-242 | the loops feed names in sorted order, counts in eight bytes and texts, for any map order |
| Digests.SortedIsArranged | producer/producer.go:209-222 | sorting the names gives one list, whatever order they are visited in |
| Digests.Utf8Injective | producer/producer.go:225-236 | different texts have different bytes |
| Digests.CharDecodes | producer/producer.go:225-236 | the bytes of a character read back to its code point, in one to four bytes |
| Digests.LittleEndianSpells | producer/producer.go:227 | the eight bytes of a count read back to the count |
| Digests.DigestAround | producer/producer.go:224-238 | the input is one section after the other, each with its name, count and texts |
| Digests.OneTypeExact | producer/producer.go:224-238 | for a single type two digests agree if and only if name, count and the texts run together do |
| Digests.EqualCounts | producer/producer.go:224-238 | states of the same types with one digest have equally many records of each type, up to and including the first whose texts differ in length |
| Digests.DigestExact | producer/producer.go:224-238 | states with equal digests read the same if and only if they have the same types, with equally many records of equally long texts |
| Digests.DigestCollides | producer/producer.go:226-237 | moving text from one record to the next never shows in the digest, although the states read differently unless the text is empty |
| History.CycleEffect | producer/producer.go:127-204 | versions, digest, snapshot counter, store and content after each outcome |
| History.CycleOutcome | producer/producer.go:127-204 | each of the six outcomes, if and only if: told from the producer state and what the cycle is given |
| History.OneTypeIdentical | producer/producer.go:150-157 | with one type a cycle is skipped as identical if and only if count and texts run together are those of the last published values |
| History.AnnouncedInOrder | producer/producer.go:159-204 | over any run the announced versions are the next ones up to the current version, each once and in order, and every one is stored |
| History.PopulatedIsRows | internal/state.go:27-48 | the content of a cycle is what it was given, in order, type by type |
| History.CyclePublishes | producer/producer.go:262-327 | a published version is a snapshot of the content, or a delta that leads to it from the previous content for every type without a key |
| History.SnapshotVersions | producer/producer.go:338-345 | the interval test selects exactly the versions with (v - 1) mod n = 0 |
| History.StoreShapeKept | producer/producer.go:262-345 | a cycle keeps the store invariant if and only if it is not one whose due snapshot the serializer refuses |
| History.PlanBounded | consumer/consumer.go:149-170 | between published versions there is no gap, and at most min(n, to - from) blobs are planned |
| History.BaseKept | internal/state.go:238-252 | after a cycle that publishes nothing the diff base still reads as published if and only if the producer was not primary or was given values that read the same |
| History.PlainDeltaEmpty | producer/producer.go:285-297 | without keys and vanishing types a delta is empty if and only if nothing reads differently |
| History.ReshardFrame | producer/producer.go:162-165 | resharding changes no value, delta, identity map or previous state |
| Consumption.RecordList.ReplayRecords | consumer/consumer.go:269-287 | the records are replayed on the list in place |
| Consumption.ReadStateEngine.SetCurrentState | internal/state.go:700-717 | the installed state alone stays valid, none at all if none is given, and the total is the sum of its list lengths: the number itself below 2^31, in the 32-bit range and congruent to it always |
| Consumption.Consumer.PlanBlobs | consumer/consumer.go:149-170 | the loop computes the specified plan and terminates |
| Consumption.Consumer.LoadSnapshot | consumer/consumer.go:202-227 | a new state with exactly the types of the snapshot that the filter's sets show, and its record total; bytes that do not decode leave the consumer as it was |
| Consumption.Consumer.ApplyDelta | consumer/consumer.go:231-292 | the delta applied to copies: the types are the old ones and those of the delta that the filter's sets show; every record list of every state installed before keeps its contents, through in-place deletes as well |
| Consumption.Consumer.TriggerRefreshTo | consumer/consumer.go:173-200 | the refresh as specified, stopping at the first blob that fails |
| Consumption.Consumer.FollowUpdate | consumer/consumer.go:114-120 | one turn of the auto-refresh loop follows a version above the current one and drops the error |
| Consumption.RefreshToSnapshot | consumer/consumer.go:173-227 | a refresh to a version with a snapshot serves its lists of the included types if the filter excludes all, otherwise of all types but the excluded ones |
| Consumption.DeltaTypes | consumer/consumer.go:231-292 | a delta takes no type away and adds those it names that the filter shows |
| Consumption.AutoRefreshShown | internal/state.go:763-768 | whatever the stores hold and however the refreshes end, nothing is served that the filter hides |
| Walking.RefreshRight | consumer/consumer.go:149-200 | if every snapshot is right and every delta leads from right to right, a refresh is right by any route, never goes back, and arrives if and only if its own walk decodes |
| Walking.RefreshEnds | consumer/consumer.go:149-200 | on any store with a blob for each version: a refresh succeeds if and only if the deltas above its anchor decode, if and only if it reaches its target; otherwise it stops below the first that does not |
| Walking.AutoRefreshRight | consumer/consumer.go:104-122 | following announced versions while the store changes: right, never back, and a version is reached if and only if its walk decodes |
| Replication.StoreOverRuns | producer/producer.go:262-345 | after any run in which due snapshots were stored: each version is a snapshot or a delta as the interval says, and planning is bounded and gap-free |
| Replication.RecordedKept | producer/producer.go:127-204 | a successful cycle keeps store, published states and diff base together |
| Replication.SucceedsOnInputs | producer/producer.go:127-204 | which cycles the run theorems speak of, told from what a cycle is given |
| Replication.RunRecorded | internal/state.go:238-252 | over any run of successful cycles the state a delta is measured against reads like the last published one |
| Replication.DeltaStepExact | consumer/consumer.go:268-287 | a published delta keeps a faithful list faithful if and only if its type does not vanish and shrinks by at most one record |
| Replication.RefreshFaithful | consumer/consumer.go:173-200 | one refresh keeps the replica faithful to the published states, never goes back, and arrives if and only if its walk decodes |
| Replication.ReplicaFaithful | consumer/consumer.go:149-292 | over whole runs, whatever the interleaving and the routes, a type without a key is served if and only if it was published at the replica's own version and the filter's sets show it, with the list published there, even after a refresh that failed half way |
| Replication.RunShown | internal/state.go:763-768 | over any run, and for keyed types as well, nothing is served that the filter hides |
| Replication.RunGrows | consumer/consumer.go:173-200 | no event takes the replica's version back or changes what has been published |
| Replication.PublishedDecodes | producer/producer.go:153-157 | without keys a published delta is never empty |
| Replication.RunArrives | consumer/consumer.go:173-200 | without keys the replica is at the highest version it was asked for |
| Replication.ReplicationOverRuns | consumer/consumer.go:149-292 | end to end: after any regular run the consumer is at the highest version asked for, with exactly the data published there |
| Replication.ReplicationWithKeys | consumer/consumer.go:149-292 | with primary keys and a type filter, where each refresh finds its own walk decodable: the highest version asked for, with the published lists of the types without a key |
| Replication.RunArrivesExactly | consumer/consumer.go:149-200 | over any regular run all refreshes arrive if and only if the walk of each decodes |
| PrimaryKeys.ChangedInTable | internal/state.go:519-539 | the search for an ordinal in the previous list is a lookup in its ordinal table |
| PrimaryKeys.PopulateKeyed | internal/state.go:551-594 | population keeps the numbering and records exactly the changes against the previous state |
| PrimaryKeys.KeyedDeltaExact | internal/state.go:385-422 | with distinct keys the cycle's delta, merged or not, applied by ordinal to the previous table gives the current one; no ordinal is both deleted and written |
| KeyedHistory.KeyedBaseKept | internal/state.go:238-252 | after any outcome the next cycle finds records that carry the ordinals of their keys, and no ordinal has changed |
| KeyedHistory.PublishedKeyed | producer/producer.go:285-297 | the stored delta of a keyed type is the merged delta of the cycle, with or without resharding |
| KeyedHistory.ReshardIdentities | internal/state.go:328-356 | resharding keeps every record value, ordinal and update mark |
| KeyedRuns.CycleKeyedPublish | producer/producer.go:262-327 | a published version of a keyed type: a snapshot with its values, or a delta fully told, over a base that carries its ordinals |
| KeyedHistory.PopulateNovel | internal/state.go:568-591 | updates concern keys known before the cycle, new ordinals are all in use, and a first population is in ordinal order |
| KeyedHistory.CycleTells | internal/state.go:371-422 | the merged delta adds only new ordinals, updates only old ones, deletes only ordinals that are gone, and is exact by ordinal |
| KeyedHistory.KeyedDeltaEmpty | internal/state.go:385-422 | with distinct keys a type's delta is empty if and only if both tables read the same by ordinal |
| KeyedRuns.DecodesExactly | producer/producer.go:280-297 | a published delta decodes if and only if some type reads differently: by ordinal with a key, by position without; a vanished type adds nothing |
| KeyedRuns.ChangesExactly | internal/state.go:371-504 | the delta of any cycle has a record if and only if some type reads differently |
| KeyedRuns.ReorderedReadsAs | producer/producer.go:226-237 | keyed records in another order read the same by ordinal |
| KeyedRuns.EmptyDeltaStalls | consumer/consumer.go:231-240 | a consumer whose walk needs a delta that does not decode stops at the version below it |
| Reordering.ReorderingStalls | producer/producer.go:153-157 | two cycles, the second only swapping two keyed records: both are published, the delta has no bytes, and a consumer at version 1 cannot get to version 2 |
| KeyedRuns.StandsStill | producer/producer.go:153-157 | a truly identical cycle hands out no ordinal |
| KeyedRuns.StoredDeltasExact | producer/producer.go:262-327 | over whole runs with distinct keys, every stored delta turns the table published before it into the one published with it |
| GrowOnly.GrowingAligned | consumer/consumer.go:269-278 | a delta that only updates old ordinals and appends the next ones meets every ordinal at its list position |
| GrowOnly.DeletesLeaveHalf | consumer/consumer.go:279-286 | replaying deletes of all ordinals from one on takes away only about half of the list |
| GrowOnly.KeyedReplayExact | consumer/consumer.go:269-287 | replaying the delta of a keyed type keeps position equal to ordinal if and only if the ordinals in use stay, lose only the last, or only grow while all are in use |
| GrowOnly.CycleReplayExact | consumer/consumer.go:269-287 | the same for the delta a cycle really publishes |
| GrowOnly.KeptByKeys | internal/state.go:404-421 | no ordinal is left out if and only if no key is |
| GrowOnly.PlacedStepExact | consumer/consumer.go:231-292 | the same for each stored delta of a run and a consumer that is right before it |
| GrowOnly.PlacesOverRuns | consumer/consumer.go:173-292 | over whole runs whose deltas keep the places, the list has one entry per record, and the entry at the ordinal of a key is its latest payload |
| GrowOnly.GrowOnlyRuns | consumer/consumer.go:173-292 | in particular over runs that leave no key out until the next snapshot |
| Announcer.RemoveDead | blob/goroutine_announcer.go:103-107 | removal by descending index keeps the other elements in order |
| Announcer.GoroutineAnnouncer.RecordVersion | blob/goroutine_announcer.go:150-156 | the locked half of Announce raises the latest version, never lowers it |
| Announcer.GoroutineAnnouncer.Enqueue | blob/goroutine_announcer.go:158-165 | the version is queued, or there is an error and nothing changes |
| Announcer.GoroutineAnnouncer.SafeChannelSend | blob/goroutine_announcer.go:112-126 | the send succeeds exactly when the buffer has a free place, or without a buffer a receiver waits, and then the channel has got exactly the version |
| Announcer.GoroutineAnnouncer.ProcessAnnouncement | blob/goroutine_announcer.go:85-109 | older versions are dropped; otherwise all subscribers are offered the version and those it does not reach are removed |
| Announcer.GoroutineAnnouncer.AnnounceVersionLocked | blob/goroutine_announcer.go:306-322 | the same loop without the version test |
| Announcer.GoroutineAnnouncer.Latest | blob/goroutine_announcer.go:169-177 | the pinned version while there is a pin, the latest otherwise |
| Announcer.GoroutineAnnouncer.Pin | blob/goroutine_announcer.go:185-194 | the pin is set and its version offered to everybody |
| Announcer.GoroutineAnnouncer.Unpin | blob/goroutine_announcer.go:197-206 | the pin is released and the latest version offered to everybody |
| Announcer.GoroutineAnnouncer.Subscribe | blob/goroutine_announcer.go:229-242 | a new channel at the end of the list |
| Announcer.GoroutineAnnouncer.Unsubscribe | blob/goroutine_announcer.go:252-262 | the first entry of the channel is removed |
| AnnouncerProtocol.RemovalIsFiltering | blob/goroutine_announcer.go:92-107 | what remains is exactly the subscribers whose send succeeded, in order, also when one is listed twice |
| AnnouncerProtocol.NotifiedAt | blob/goroutine_announcer.go:95-101 | each listed channel is offered the version once, nobody else is |
| AnnouncerProtocol.NotifyReaches | blob/goroutine_announcer.go:92-126 | a listed subscriber with a free place, or unbuffered with a waiting receiver, gets exactly the version and stays; one without gets nothing and is removed; nobody else is touched |
| AnnouncerProtocol.SafeKept | blob/goroutine_announcer.go:85-206 | every step of the protocol keeps its invariant |
| AnnouncerProtocol.RunSafe | blob/goroutine_announcer.go:85-262 | under every interleaving: the latest version is max(0, announced), and for each listed subscriber for whom it was announced after it joined, it is in the channel, on its way, or its Announce failed |
| AnnouncerProtocol.QuietDelivered | blob/goroutine_announcer.go:85-166 | once nothing is on its way and no Announce of the highest version has failed, it has been delivered |
| AnnouncerProtocol.RunListed | blob/goroutine_announcer.go:85-262 | over any run a subscriber is listed if and only if it never unsubscribed and everything offered since it joined found room |
| AnnouncerProtocol.ListedGetsAll | blob/goroutine_announcer.go:85-206 | over any run a listed subscriber has been sent exactly what was offered since it joined, in that order |
| AnnouncerProtocol.RoomyDelivered | blob/goroutine_announcer.go:85-166 | a subscriber that always had room and never left gets the highest version once nothing is on its way |
| AnnouncerProtocol.RunRises | blob/goroutine_announcer.go:85-109 | without pins each subscriber's versions never go back |
| AnnouncerProtocol.OrderKept | blob/goroutine_announcer.go:85-206 | any step keeps all subscribers in order if and only if nobody it reaches was sent a higher version last |
| AnnouncerProtocol.RunOrder | blob/goroutine_announcer.go:85-206 | over any run, pins and unpins included, no subscriber sees a version go back if and only if every step was orderly |
| AnnouncerProtocol.RunReading | blob/goroutine_announcer.go:169-206 | over any run a reader sees the last unreleased pin, otherwise the highest announced version |
| Feed.InMemoryFeed.Announce | blob/announcement.go:71-89 | only a higher version goes out, to every subscription, in any order |
| Feed.AnnounceReaches | blob/announcement.go:71-89 | a listed channel with room gets exactly the version, one without is skipped and stays listed, nobody else is touched |
| Feed.InMemoryFeed.Latest | blob/announcement.go:92-100 | the pinned version while there is a pin, the latest otherwise |
| Feed.InMemoryFeed.Pin | blob/announcement.go:102-108 | only the pin changes, nobody is told |
| Feed.InMemoryFeed.Unpin | blob/announcement.go:110-116 | only the pin changes, nobody is told |
| Feed.InMemoryFeed.Subscribe | blob/announcement.go:125-136 | a new channel that is listed from now on |
| Feed.InMemoryFeed.Remove | blob/announcement.go:41-47 | a closed subscription is no longer listed |
| Feed.FeedDelivers | blob/announcement.go:71-136 | over any run every channel sees strictly rising versions, and a listed one has been sent exactly the running maxima since it joined if and only if it was never without room |
| Feed.FeedReads | blob/announcement.go:92-116 | over any run a reader sees the last unreleased pin, otherwise the highest announced version |
| Schemas.Equals | schema/schema.go:67-101 | the loop decides the specified equality, for any map order |
| Schemas.EqualByCases | schema/schema.go:67-101 | sets, lists and maps are equal if and only if kind and every part agree; objects, if names and field counts agree and each name's last field is the other's last of that name |
| Schemas.EqualMeaning | schema/schema.go:67-101 | with distinct field names: the same name and a permutation of the same fields |
| Schemas.EqualReflexive | schema/schema.go:67-101 | equality is reflexive, without conditions |
| Schemas.EqualTransitive | schema/schema.go:67-101 | equality is transitive, without conditions |
| Schemas.EqualSymmetric | schema/schema.go:67-101 | an equality holds the other way if and only if both sides name equally many fields |
| Schemas.EqualSymmetricDistinct | schema/schema.go:67-101 | distinct field names on one side suffice, and carry over |
| Schemas.HashCode | schema/schema.go:103-132 | the loops compute the specified hash of each kind of schema |
| Schemas.HashMeaning | schema/schema.go:103-132 | the hash is the polynomial in 31 of the bytes of the name and the other parts, for an object its field names in order, modulo 2^64 |
| Schemas.EqualHashes | schema/schema.go:103-132 | equal schemas that name the same fields equally often have equal hashes |
| Schemas.EqualHashesDistinct | schema/schema.go:103-132 | in particular equal schemas with distinct field names |
| Schemas.RepeatedFieldName | schema/schema.go:82-98 | a repeated field name breaks symmetry and the hash law |
| Schemas.HasIdenticalSchemas | schema/schema.go:279-304 | the loop decides the specified comparison of datasets |
| Schemas.IdenticalExactly | schema/schema.go:279-304 | a match means equally many schemas, and the last of each name equal to the other's last of that name |
| Schemas.IdenticalSymmetric | schema/schema.go:279-304 | a match holds the other way if and only if equally many schemas are named, and equally many fields in each pair |
| Schemas.IdenticalSymmetricDistinct | schema/schema.go:279-304 | distinct names on one side suffice |
| Schemas.IdenticalReflexive | schema/schema.go:279-304 | every dataset matches itself |
| Schemas.IdenticalTransitive | schema/schema.go:279-304 | transitive, without conditions |
| Schemas.IdenticalMatches | schema/schema.go:279-304 | every schema has exactly one partner of its name, and it is equal |
| SchemaOrder.IsPrimitiveType | schema/parser.go:633-649 | the loop decides membership in the list of primitives under case folding |
| SchemaOrder.PrimitiveWords | schema/parser.go:633-649 | the primitives are seventeen words, however they are capitalised |
| SchemaOrder.ExtractDependencies | schema/parser.go:553-575 | exactly the names a schema mentions: the types of its reference fields, or the element, key or value types that are not primitive |
| SchemaOrder.CountDegrees | schema/parser.go:579-591 | each name's count of references to known names |
| SchemaOrder.Release | schema/parser.go:613-622 | counts drop by the references to the processed name, and exactly the names that reach zero are queued, once each, for any map order |
| SchemaOrder.Process | schema/parser.go:593-623 | the main loop terminates with every name taken at most once, in dependency order, and exact counts for the rest |
| SchemaOrder.LeftOver | schema/parser.go:625-627 | names left when the queue is empty contain a cycle |
| SchemaOrder.OrderedNoCycle | schema/parser.go:543-630 | a dependency order of all names excludes every cycle, self-references included |
| SchemaOrder.TopologicalSort | schema/parser.go:543-630 | succeeds if and only if names are distinct and no schema mentions itself, directly or through others, and then returns a permutation with every mentioned schema strictly before its user |
| SchemaOrder.OrderingSortable | schema/parser.go:543-630 | schemas that can be ordered at all are accepted |
| SchemaOrder.MutualReference | schema/parser.go:625-627 | two objects that refer to each other, or one that refers to itself, are an error, whatever else is given |
| LegacyDiff.DiffData | legacy/diff.go:22-42 | the three key lists are exact and free of repetitions, for any map order |
| LegacyDiff.Apply | legacy/diff.go:45-64 | the target becomes what the three lists and the source say |
| LegacyDiff.AppliedAt | legacy/diff.go:45-64 | key by key: removed keys go, added and changed ones take the source's value if it has one, all others stay |
| LegacyDiff.RoundTrip | legacy/diff.go:22-64 | applying the diff of two maps to the first gives the second, up to what the comparison equates |
| LegacyDiff.RoundTripExact | legacy/diff.go:22-64 | with a comparison that is equality, exactly the second |
| LegacyDiff.ValidateDelta | legacy/delta.go:386-416 | accepted if and only if no key occurs twice, within or across the lists |
| LegacyDiff.DiffValidates | legacy/delta.go:386-416 | every computed diff is accepted |
| LegacyDiff.RebuildDiff | legacy/capnp_store.go:715-739 | the witness maps and their diff |
| LegacyDiff.RebuildExact | legacy/capnp_store.go:715-739 | the three key sets come back if and only if they do not overlap |
| LegacyDiff.StoredRoundTrip | legacy/capnp_store.go:715-739 | a computed diff that has been through storage is valid and still turns the old map into the new one |
| Indexes.BuildHashIndex | index/zero_copy_index.go:91-116 | the buckets built row by row |
| Indexes.BucketIsScan | index/zero_copy_index.go:104-113 | a bucket is what a linear scan finds, in order |
| Indexes.BucketsPartition | index/zero_copy_index.go:104-113 | the buckets together hold every row once |
| Indexes.FindMatches | index/zero_copy_index.go:27-43 | the bucket of the joined values, or nothing |
| Indexes.HashLookup | index/zero_copy_index.go:27-43 | any lookup finds exactly the rows whose value has the same pieces between bars, in order |
| Indexes.HashLookupBarFree | index/zero_copy_index.go:27-43 | over bar-free values one value finds its scan and several find nothing |
| Indexes.BuildUniqueIndex | index/zero_copy_index.go:119-148 | fails if and only if two rows share a value; otherwise maps each row's value to its offset |
| Indexes.BuildPrimaryKeyIndex | index/zero_copy_index.go:151-190 | fails if and only if two rows share a joined key; otherwise maps each to its offset |
| Indexes.UniqueLookup | index/zero_copy_index.go:55-59 | a lookup in a built index is a linear search of its rows |
| Indexes.GetPrimaryMatch | index/zero_copy_index.go:72-84 | the entry of the joined key, or none |
| Indexes.SplitJoin | index/zero_copy_index.go:167-173 | joining bar-free parts loses nothing: they can be read back |
| Indexes.JoinSplit | index/zero_copy_index.go:167-173 | joining what a key splits into gives the key back |
| Indexes.JoinEqual | index/zero_copy_index.go:167-173 | two lists of parts share a key if and only if they have the same pieces between bars |
| Indexes.JoinInjective | index/zero_copy_index.go:167-173 | non-empty lists of bar-free parts share a key only when they are equal |
| Indexes.JoinCollides | index/zero_copy_index.go:167-173 | a bar inside a part, or a missing part, makes different keys collide |
| Indexes.PrimaryLookup | index/zero_copy_index.go:72-84 | a lookup by any parts is a linear search for a row with the same pieces |
| Indexes.PrimaryLookupBarFree | index/zero_copy_index.go:72-84 | over bar-free parts a linear search by the parts |
| Indexes.PrimaryUnique | index/zero_copy_index.go:175-178 | the builder fails if and only if two rows have the same pieces |
| Indexes.PrimaryUniqueBarFree | index/zero_copy_index.go:175-178 | over bar-free parts: exactly when two rows agree in all of them |

## Left out

- Replication.ReplicationOverRuns: asks for no primary keys and no type filter, because an unreadable empty delta can stop the consumer otherwise; `ReplicationWithKeys` covers the other cases where each walk decodes.
- GrowOnly.PlacesOverRuns: asks snapshots after the first to list records by ordinal, because a snapshot keeps the order of population; up to the second snapshot there is nothing to ask.
- Producing.Producer.RunCycle: leaves out the populated count; the announcer's answer does not affect a cycle.
- Producing.Producer.Store: leaves out the checksum and the metadata of a blob.
- Announcer.GoroutineAnnouncer.SafeChannelSend: leaves out closed channels and the recovered panic, because the protocol stops before channels are closed.
- AnnouncerProtocol.NotifiedAt: asks for distinct subscribers; a caller who lists one channel twice through `SubscribeChannel` has it offered each version twice.
- WriteEngine.WriteStateEngine.PerformResharding: leaves out a shard size of 0, with which the division in the code panics.
- Duplicate keys within a cycle: the keyed theorems ask for distinct, readable keys; key extraction by reflection or from Cap'n Proto structs is a lookup of a field text.
- Several producers on one store, `Restore`, `RemoveSnapshot` and reverse blobs on the consumer side: runs have one producer, and blobs are never removed.
- `TriggerRefresh` without a version: it picks a target and calls the refresh that is modelled.
- Checksums, blob metadata, header tags and schemas carried with a state: nothing modelled depends on them.
- Serialization formats, compression and the delta codec that drops contents: bytes are what they decode to.
- A digest that happens to be 0, which the code takes for "none yet".
- Record wrappers in the consumer: a snapshot hands over plain values.
- Building a type filter, and changing one after a consumer has it: a filter is a value.
- Sharing of backing arrays between Go slices: record lists are objects that hold a sequence.
- `Close`, contexts, channel closing, periodic cleanup, `WaitForVersion` and channels subscribed by the caller: the protocol stops before the announcer is closed, and each subscription has a channel of its own.
- Timing: the wait for room in the queue ends in an error at any time, and a version may wait there for ever.
- The order in which parked receivers are served: an unbuffered send succeeds when the step says its receiver waits.
- Strings that are not valid UTF-8, and case folding beyond what meets the ASCII names of the primitive types.
- The text and regular-expression parsers of the schema language: only dependency extraction and ordering.
- Legacy values: deep equality is an arbitrary relation, and storage of the key lists is lossless.
- Extraction for the indexes: any list of keys and offsets; records are their offsets.
- S3 storage, file watching, command line tools, zero-copy views, collections and demos.
