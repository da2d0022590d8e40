# Verified model of the bouine HTTP cache

bouine is a clustered HTTP cache that follows RFC 9111. This project models the parts of it
whose correctness is hardest to see from the code and proves what they promise.

| file | what it models |
|---|---|
| `Flights.dfy` | sharing one origin fetch between concurrent misses, as a step machine over every interleaving |
| `Inflight.dfy` | the sharded table of in-progress fetches |
| `Tee.dfy` | the streaming tee and the shared byte counter that bounds it |
| `VariantSets.dfy` | the bookkeeping of Vary variants around lock-free store probes |
| `Scheduler.dfy` | the refresh heap, its key index, and compaction in three phases |
| `Ring.dfy` | the consistent-hash ring and a node's view of the cluster |
| `Bytes.dfy`, `Codec.dfy`, `Wire.dfy` | the binary batch format, its in-place writers and readers, and splitting under a budget |
| `Gossip.dfy` | draining the gossip queue round by round |
| `Batcher.dfy` | the invalidation batcher, as a step machine |
| `UserAgent.dfy` | User-Agent globs |
| `Ordering.dfy`, `Text.dfy` | sorting and byte strings shared by the rest |
| `Query.dfy`, `KeyBuild.dfy` | canonical queries and the three primary-key builders |
| `VaryKeys.dfy` | variant keys, assertion keys, and the Vary list a route declares |
| `Negotiation.dfy` | Accept-Encoding and Accept-Language buckets |

Objects the source updates in place are classes, buffers are arrays, and loops are methods
proved against a function or a property. Protocols that give a lock up half way are step
machines: every stretch under a lock, and every atomic access, is one event, and results are
stated for every run. A Go string is a `string` whose characters are bytes; letters have case
and white space is trimmed only in ASCII.

`dafny verify dfyconfig.toml` checks everything.

## Where the code does less than its comments say

Each of these is a lemma with the failing input, next to a lemma that says exactly when the
promise does hold.

- A follower can be handed the header map the leader's store path is still mutating, contrary to
  `internal/cache/stream.go:892-906`: a follower takes the flight out of the table under the
  shard lock and is counted in only after releasing it, and the leader may publish in between
  (`Flights.LateFollowerReadsTheStoreMap`, `Flights.SharedMapExactlyWhenLate`,
  `Flights.SharedMapMeansCountedLater`).
- A complete body that outgrew the tee's buffer is handed to followers as a prefix, although
  `internal/cache/stream.go:1170-1190` says that no follower inherits a truncation
  (`Tee.LongBodyIsCutShort`, `Tee.HandedBodiesAreWhole`).
- A purge between a fill's reservation and its store put reports success and leaves the variant
  stored where no later purge finds it (`VariantSets.PurgeMissesAFill`,
  `VariantSets.PutIsTrackedUnlessCut`).
- A prune that acts on an old probe drops a variant that was stored again meanwhile
  (`VariantSets.StaleProbeUntracksAStoredVariant`, `VariantSets.PruneKeepsStoredVariants`).
- The refresh drainer pops whatever is on top when it takes the lock again, so a key put off in
  between fires early (`Scheduler.PostponedKeyPopsEarly`, `Scheduler.RefreshScheduler.Drain`,
  `Scheduler.PoppedIsDue`).
- An event queued after the batcher's final drain is accepted and never sent
  (`Batcher.LateEventIsStranded`, `Batcher.FinalDrainIsExact`).
- A timestamp at exactly the Unix epoch decodes as the zero time, and more than 4096 events
  encode but do not decode (`Codec.RoundTrip`).
- Two virtual nodes on one point make the ring depend on history (`Ring.CollisionForgetsAPeer`,
  `Ring.SelfCollisionStays`, `Ring.RemoveUndoesAddIffDistinct`).
- An empty query segment moved to the end of the query changes the key
  (`Query.FinalEmptySegmentShows`, `Query.EmptySegmentShows`, `Query.ReorderedQuery`).
- A Vary value of one blank is not the empty Vary value (`VaryKeys.BlankIsNotEmpty`,
  `VaryKeys.VariantIgnoresSpelling`).
- The spelling of the language tag sent to the origin follows list order
  (`Negotiation.SpellingFollowsOrder`, `Negotiation.SpellingNeedsOneSpelling`).
- A primary language subtag of one character is accepted, although
  `internal/cache/vary.go:594-601` speaks of two to eight (`Negotiation.OneCharacterTag`,
  `Negotiation.CommentedRuleHolds`).

## Model

| member | source | states |
|---|---|---|
| Flights.TagsAreBijections | internal/cache/collapse.go:168-192 | each XOR tag is its own inverse and the two tags never send one key to the same place |
| Flights.MissSettles | internal/cache/stream.go:386-513 | every path of a miss, whatever the origin answers, closes both channels exactly once with the result written first |
| Flights.SameKeySameKind | internal/cache/collapse.go:213-240 | equal flight keys mean the same kind of flight and the same HEAD class |
| Flights.HandedBytesAreShareable | internal/cache/handler.go:2999-3122 | in every reachable state, a request handed bytes and its leader entered with store lookups that gave the same flight key and the same untagged key, in one HEAD class, neither carries credentials, and the bytes carry no client state |
| Flights.ViaIsLastLookup | internal/cache/handler.go:2999-3047 | the lookup meant there is, in every run, the one of the last miss the request entered |
| Flights.FillFollowersReenterOnce | internal/cache/handler.go:3124-3163 | a fill follower is never handed bytes, re-enters at most once and never parks on a fill flight again |
| Flights.EveryFlightSettlesOnce | internal/cache/stream.go:1191-1272 | in every reachable state each channel was closed at most once, after the one write of the result, and exactly once when the leader has returned |
| Flights.DeleteRemovesOwnEntry | internal/cache/handler.go:3082-3083 | in every reachable state the deferred delete finds the leader's own flight under its key and removes that entry and no other |
| Flights.LeaderNeverBlocks | internal/cache/stream.go:841-982 | the leader of an unsettled flight can always take its next step |
| Flights.FollowersAreReleased | internal/cache/stream.go:1019-1049 | every run, whatever the verdict, has settled the flight with every parked follower free to wake, or its leader took fewer than its at most five owed steps and can take the next |
| Flights.ScriptReleases | internal/cache/stream.go:841-982 | once the origin answered, as many leader steps as its script is long, among any steps of the others, release both kinds of follower |
| Flights.VerdictIsFinal | internal/cache/stream.go:1254-1261 | once `done` is closed the result no longer changes, so all followers read one verdict |
| Flights.SharedMapExactlyWhenLate | internal/cache/stream.go:892-982 | at every later moment the published header map is the one the store mutates if and only if the response is to be stored with a map of its own headers and nobody was counted in at the publication |
| Flights.SharedMapMeansCountedLater | internal/cache/stream.go:892-906 | a follower handed that map was counted in after the publication, and for a flight of one follower exactly then |
| Flights.LateFollowerReadsTheStoreMap | internal/cache/handler.go:3044-3047 | a run in which a follower found the flight before the publication, is counted in after it and holds the map the store is still to mutate |
| Inflight.Table.LoadOrStore | internal/cache/inflight.go:66-78 | the shards behave as one map: the existing entry wins, otherwise the new one is stored |
| Inflight.Table.Delete | internal/cache/inflight.go:80-85 | exactly the given key leaves the one map |
| Tee.CounterIsBounded | internal/cache/stream.go:1070-1130 | in every run of n tees the counter is the sum of the live tees' reports, at most the cap minus one plus n chunks, and zero when no tee is live |
| Tee.BoundIsMet | internal/cache/stream.go:1296-1309 | for every positive cap and every n, some run meets that bound exactly if and only if n response buffers can hold that much |
| Tee.StoredBodiesAreWhole | internal/cache/stream.go:1191-1222 | a stored body is every chunk read up to a clean end; without a global cap exactly the complete bodies that fit are stored |
| Tee.HandedBodiesAreWhole | internal/cache/stream.go:1170-1222 | a body handed to followers is a prefix of what was read, and all of it if and only if buffering never stopped; without a global cap, if and only if it fits the buffer |
| Tee.LongBodyIsCutShort | internal/cache/stream.go:1070-1222 | for all limits and chunks, a body longer than the buffer has a run that hands over a proper prefix of it |
| VariantSets.ReservationLandsOnTheTable | internal/cache/handler.go:3977-4022 | when a reservation succeeds its key is in the set the table holds at that moment, and one is refused only by a set at or above the cap |
| VariantSets.CapHolds | internal/cache/handler.go:3977-4022 | a set outgrows the cap only by what peer puts registered; local fills alone never pass it |
| VariantSets.ReservationProgress | internal/cache/handler.go:3877-3951 | a reservation is never blocked, each of its steps brings its answer closer, and a peer put is never refused |
| VariantSets.EveryReservationEnds | internal/cache/handler.go:3877-4022 | in every infinite run, whatever the others do, a reservation that keeps being scheduled gets an answer |
| VariantSets.EveryPeerPutRegisters | internal/cache/handler.go:3977-4022 | and that of a peer put is that its key is registered |
| VariantSets.DetachedSetIsFrozen | internal/cache/handler.go:1282-1307 | once a purge detached a set no event changes it |
| VariantSets.PurgeRemovesEverything | internal/cache/handler.go:1282-1307 | however the run goes on, an owned purge whose deletes succeed removed the primary and every key the table tracked for it when the purge took the lock (section 4.4 of RFC 9111) |
| VariantSets.LostIffCut | internal/cache/handler.go:3877-4022 | over every run a key is untracked at the end if and only if a purge, wipe or prune cut it and nobody registered it since, or it was untracked and stayed so |
| VariantSets.PutIsTrackedUnlessCut | internal/cache/stream.go:963-973 | a variant put into the store behind its successful reservation is untracked if and only if such a cut came in between |
| VariantSets.PurgeMissesAFill | internal/cache/handler.go:1282-1307 | for every cap and every key, a run in which a successful purge comes in between and the variant stays stored and untracked |
| VariantSets.PruneKeepsStoredVariants | internal/cache/handler.go:3953-3975 | a prune keeps every stored variant tracked if and only if no key its probes found absent is tracked and stored by now |
| VariantSets.StaleProbeUntracksAStoredVariant | internal/cache/handler.go:3866-3876 | in a cluster, a reachable state in which a successful peer put is stored and no longer tracked |
| HeapOrder.UpStep | internal/cache/scheduler.go:24-34 | one sift-up swap moves the only disorder to the parent slot |
| HeapOrder.DownStep | internal/cache/scheduler.go:24-34 | one sift-down swap moves the only disorder to the earlier child's slot |
| HeapOrder.RootIsLeast | internal/cache/scheduler.go:20-28 | the root of an ordered heap is a minimum |
| Scheduler.RefreshScheduler.Swap | internal/cache/scheduler.go:30-34 | two slots, possibly the same one, are exchanged and every entry still knows its own slot |
| Scheduler.RefreshScheduler.Push | internal/cache/scheduler.go:36-40 | the heap holds one entry more, ordered, every entry knowing its slot |
| Scheduler.RefreshScheduler.Pop | internal/cache/scheduler.go:42-49 | a minimum leaves the heap, the rest stays ordered, every entry knowing its slot |
| Scheduler.RefreshScheduler.Fix | internal/cache/scheduler.go:121-143 | a heap with one changed time is ordered again |
| Scheduler.RefreshScheduler.Schedule | internal/cache/scheduler.go:121-143 | the plan maps the key to its new time and nothing else changes, unless stopped |
| Scheduler.RefreshScheduler.Stop | internal/cache/scheduler.go:147-152 | later `Schedule` calls leave the plan alone |
| Scheduler.RefreshScheduler.Take | internal/cache/scheduler.go:207-214 | a key with the least time leaves heap and index together |
| Scheduler.RefreshScheduler.Drain | internal/cache/scheduler.go:179-214 | a round pops if and only if some key was due when it looked, and then a minimum of the plan as it is once the lock is taken again, which is due if and only if the scheduler is stopped or some key is still due after the gap |
| Scheduler.RefreshScheduler.CollectDue | internal/cache/scheduler.go:236-248 | phase 1 takes out exactly the due part of the plan, each key once |
| Scheduler.FilterAlive | internal/cache/scheduler.go:250-257 | phase 2 keeps exactly the live keys |
| Scheduler.RefreshScheduler.Reinsert | internal/cache/scheduler.go:259-270 | phase 3 adds the live keys and overrides no key scheduled meanwhile |
| Scheduler.RefreshScheduler.Compact | internal/cache/scheduler.go:232-271 | the whole compaction, with any `Schedule` calls in the gap, keeps heap and index valid and leaves the plan `Compacted` describes |
| Scheduler.CompactionIsExact | internal/cache/scheduler.go:232-271 | a key is gone exactly when it was due, dead and not rescheduled; a rescheduled key has its last time, every other its old one |
| Scheduler.PoppedIsDue | internal/cache/scheduler.go:190-214 | a least key of the plan behind the gap is due if and only if some key of it is |
| Scheduler.PostponedKeyPopsEarly | internal/cache/scheduler.go:190-214 | draining a lone key seen due and put off in the gap pops it before its new time, whatever the times |
| Scheduler.PostponedAtTen | internal/cache/scheduler.go:190-214 | a scheduler on which a drain at 10 pops a key set for 100 |
| Ring.AddKeepsRing | internal/cluster/cluster.go:896-903 | with distinct points, adding a name gives the ring of the larger set of names |
| Ring.RemoveKeepsRing | internal/cluster/cluster.go:905-915 | removing a name gives the ring of the smaller set |
| Ring.RingIsUnique | internal/cluster/cluster.go:831-881 | the set of names alone determines points and owners |
| Ring.RemoveUndoesAdd | internal/cluster/cluster.go:896-915 | removing right after adding restores the ring |
| Ring.CollisionForgetsAPeer | internal/cluster/cluster.go:896-915 | whenever a joining name shares a point with a known one, its leaving again strips that point of its owner, at any number of virtual nodes |
| Ring.SelfCollisionStays | internal/cluster/cluster.go:896-915 | a name with two virtual nodes on one point leaves an ownerless point behind |
| Ring.RemoveUndoesAddIffDistinct | internal/cluster/cluster.go:896-915 | removing right after adding restores the ring if and only if the new name shares no point with itself or another |
| Ring.NearestOwns | internal/cluster/cluster.go:917-929 | the nearest point of the ring belongs to the owner by clockwise distance over all peers |
| Ring.OwnerIsUnique | internal/cluster/cluster.go:917-929 | every key has one owner |
| Ring.RemovalMovesOnlyItsKeys | internal/cluster/cluster.go:905-929 | removing a node changes the owner only of keys it owned |
| Ring.AdditionMovesOnlyToIt | internal/cluster/cluster.go:896-929 | adding a node changes owners only to it |
| Ring.RemovalOnTheRing | internal/cluster/cluster.go:905-929 | the same law for the points the search finds on the ring before and after a removal |
| Ring.AdditionOnTheRing | internal/cluster/cluster.go:896-929 | the same law for the points the search finds before and after an addition |
| Ring.DigestSize | internal/cluster/cluster.go:931-944 | the digest's size is the number of peers |
| Ring.DigestInputInjective | internal/cluster/cluster.go:931-944 | equal digest inputs come from equal points |
| Ring.DigestsMatchIffPeersMatch | internal/cluster/cluster.go:931-944 | two nodes hash the same digest input if and only if they know the same peers |
| Membership.HashRing.Add | internal/cluster/cluster.go:896-903 | the loop and sort compute `Added` |
| Membership.HashRing.Remove | internal/cluster/cluster.go:905-915 | the filtering loop computes `Removed`, duplicates included |
| Membership.HashRing.Get | internal/cluster/cluster.go:917-929 | the binary search with wrap-around finds a point at least clockwise distance, on any sorted ring |
| Membership.Cluster.AddPeer | internal/cluster/cluster.go:831-840 | joining or re-joining leaves the ring of the new peers |
| Membership.Cluster.RemovePeer | internal/cluster/cluster.go:866-871 | leaving leaves the ring of the remaining peers |
| Membership.Cluster.PeerLeft | internal/cluster/cluster.go:813-824 | a node ignores its own leaving |
| Membership.Cluster.PruneStale | internal/cluster/cluster.go:706-723 | exactly the peers outside the live set are collected; with any changes in the gaps where the lock is free, the ring is that of the peers after removals and changes interleaved |
| Membership.Cluster.CollectStale | internal/cluster/cluster.go:706-717 | exactly the peers outside the live set, each once |
| Membership.PrunedIsGone | internal/cluster/cluster.go:706-723 | a collected name is gone unless it joins behind its removal, even if it came back before it |
| Membership.PruneSpares | internal/cluster/cluster.go:706-723 | a name the gaps leave alone stays exactly when it was not collected |
| Membership.Cluster.Replay | internal/cluster/cluster.go:706-871 | after any history of joins, leaves, re-adds and prune removals the ring is that of the final peers |
| Membership.Cluster.Owner | internal/cluster/cluster.go:312-329 | the answer owns the key among the current peers, or there are none |
| Membership.SamePeersSameRing | internal/cluster/cluster.go:831-944 | two nodes with the same peers have the same ring, whatever each went through, and equal digests exactly then |
| Codec.TextReads | internal/cluster/codec.go:50-70 | a string reads back with what follows it |
| Codec.PayloadReads | internal/cluster/codec.go:132-173 | a payload reads back, an epoch timestamp as the zero time |
| Codec.PayloadWrites | internal/cluster/codec.go:150-173 | whatever reads as a payload is the encoding of what was read |
| Codec.FrameReads | internal/cluster/codec_batch.go:89-136 | decoding an encoded batch of at most 4096 events gives every event back |
| Codec.AcceptedIsEncoding | internal/cluster/codec_batch.go:110-136 | every accepted byte string is exactly the encoding of what was returned |
| Codec.RoundTrip | internal/cluster/codec_batch.go:89-136 | the round trip holds if and only if there are at most 4096 events and none carries an epoch timestamp |
| Wire.PutString | internal/cluster/codec.go:50-58 | the length and the bytes land behind what was written; over 65535 bytes is an error |
| Wire.PutPayload | internal/cluster/codec.go:132-148 | the payload lands behind what was written, or a string is too long |
| Wire.Encode | internal/cluster/codec_batch.go:89-107 | the frame of the batch, or an error exactly when a string is too long |
| Wire.ReadString | internal/cluster/codec.go:60-70 | the string at an offset and the offset behind it |
| Wire.DecodePayload | internal/cluster/codec.go:150-173 | the event at an offset, or a short frame |
| Wire.DecodeBounded | internal/cluster/codec_batch.go:230-270 | the recomputed width is always the payload length, and its own bounds checks never fail |
| Wire.Decode | internal/cluster/codec_batch.go:110-136 | the result or error `Decoded` defines, for every input |
| Wire.FrameEnd | internal/cluster/codec_batch.go:63-74 | a frame ends only where the next event would pass the budget |
| Wire.EncodeBudgeted | internal/cluster/codec_batch.go:49-85 | the frames encode a greedy in-order split into non-empty parts within the budget or of one event |
| Wire.FewestFrames | internal/cluster/codec_batch.go:49-85 | no split within the budget has fewer frames |
| Gossip.Queue.QueueBroadcast | internal/cluster/cluster.go:575-578 | the message goes to the end of the queue |
| Gossip.Queue.GetBroadcasts | internal/cluster/cluster.go:616-643 | one round sends and keeps what `Drain` says |
| Gossip.RoundSplits | internal/cluster/cluster.go:616-643 | every frame has one fate, the parts keep queue order, exactly frames over 1395 bytes are dropped, the cost stays within the limit, a kept frame did not fit |
| Gossip.RoundShrinks | internal/cluster/cluster.go:616-643 | a full-size round shortens a non-empty queue |
| Gossip.RoundsEmptyTheQueue | internal/cluster/cluster.go:602-643 | n full-size rounds empty an n-frame queue and send every deliverable frame exactly once |
| Gossip.SplitBatchArrives | internal/cluster/codec_batch.go:19-28 | the queue of a batch split at 1300 bytes empties, every part decodes, and all parts are sent if and only if each event fits a frame of its own |
| Batcher.EventsAreConserved | internal/cluster/batcher.go:86-142 | in every run each event is in exactly one place, the loop sends in queue order, and the queue holds at most 4096 + 255 |
| Batcher.QueueBoundIsMet | internal/cluster/batcher.go:106-229 | a run whose queue holds exactly 4096 + 255 events |
| Batcher.FinalDrainIsExact | internal/cluster/batcher.go:191-244 | once the loop ended it has sent exactly what was queued before its final drain |
| Batcher.LateEventIsStranded | internal/cluster/batcher.go:113-124 | an event queued after that is accepted and never sent |
| UserAgent.LeftmostIsBest | internal/cache/uabypass.go:102-126 | taking the leftmost occurrence of a middle segment never loses a match |
| UserAgent.SplitMeaning | internal/cache/uabypass.go:29-68 | splitting a pattern at its stars keeps its meaning |
| UserAgent.AsciiEqualFold | internal/cache/uabypass.go:132-142 | equality of the folded string |
| UserAgent.AsciiIndex | internal/cache/uabypass.go:148-159 | the first occurrence in the folded string, or none |
| UserAgent.UaGlobMatch | internal/cache/uabypass.go:102-126 | accepts exactly the strings that split around the segments |
| UserAgent.Compile | internal/cache/uabypass.go:29-68 | the folded segments of exactly the usable patterns |
| UserAgent.CompiledMeaning | internal/cache/uabypass.go:29-126 | a compiled pattern accepts exactly the strings its text describes, ignoring ASCII case |
| UserAgent.MatchAny | internal/cache/uabypass.go:73-93 | true exactly when some compiled pattern matches |
| UserAgent.Bypasses | internal/cache/uabypass.go:29-93 | the cache is bypassed exactly when some usable pattern covers the User-Agent |
| Query.CollectsKept | internal/cache/fastpath.go:1046-1077 | without dedup the fast path succeeds exactly when at most eight pairs are kept and none is escaped |
| Query.CanonicalPermutes | internal/cache/fastpath.go:1035-1216 | without dedup the choice of path and the canonical bytes depend on the multiset of segments only |
| Query.EmptySegmentShows | internal/cache/fastpath.go:1046-1216 | an empty segment leaves the bytes alone if and only if it is stripped, the slow path is taken anyway, or as ninth pair it forces a slow path that writes the same |
| Query.ReorderedQuery | internal/cache/fastpath.go:1035-1216 | reordering the segments leaves the bytes alone if and only if a final empty segment stays final or leaves no trace |
| Query.FinalEmptySegmentShows | internal/cache/fastpath.go:1095-1117 | so `a&` and `&a` differ without a policy, for every bare name |
| KeyBuild.AppendByte | internal/cache/key.go:366-371 | the byte is counted, and written if it fits |
| KeyBuild.CopyOverflow | internal/cache/key.go:377-382 | all bytes are counted, those that fit are written |
| KeyBuild.HasSuffix | internal/cache/key.go:406-411 | true exactly when the text fits the buffer and ends in the suffix |
| KeyBuild.AppendHost | internal/cache/key.go:384-403 | the lowered host without default port; with it if the host outgrew the buffer |
| KeyBuild.AppendPath | internal/cache/fastpath.go:1013-1030 | the path with repeated slashes collapsed, the root for none |
| KeyBuild.CollapseIsClean | internal/cache/fastpath.go:1013-1030 | the result has no double slash and a path without one is unchanged |
| KeyBuild.CollapseSqueezes | internal/cache/fastpath.go:1013-1030 | paths that differ in repeated slashes only agree |
| KeyBuild.CollectPairs | internal/cache/fastpath.go:1046-1072 | the loop over a stack array computes `Collect` |
| KeyBuild.ParseQuery | internal/cache/fastpath.go:1151 | the values of every name in order |
| KeyBuild.SlowKeys | internal/cache/fastpath.go:1152-1185 | the surviving names sorted, whatever order the map is walked in |
| KeyBuild.AppendSlow | internal/cache/fastpath.go:1150-1216 | the slow path writes the decoded, re-escaped pairs |
| KeyBuild.AppendQuery | internal/cache/fastpath.go:1035-1080 | with and without a policy the canonical query is appended |
| KeyBuild.AppendNoPolicy | internal/cache/fastpath.go:1082-1116 | the separate loop without a policy appends what the open policy would |
| KeyBuild.AppendSlowNoPolicy | internal/cache/fastpath.go:1118-1143 | so does its slow form, whatever order the map is walked in |
| KeyBuild.PassIsCanonical | internal/cache/key.go:67-146 | a pass that fits its buffer, or whose buffer has the canonical size, has produced the canonical key |
| KeyBuild.BuildKey | internal/cache/key.go:67-146 | the hash input is the canonical key at every length |
| KeyBuild.BuildKeyFast | internal/cache/key.go:149-213 | the same canonical key |
| KeyBuild.BuildKeyFromRaw | internal/cache/fastpath.go:955-1008 | the same canonical key |
| VaryKeys.VariantSlow | internal/cache/vary.go:255-295 | the allocating form hashes the entries of the sorted clean fields |
| VaryKeys.ContainsStar | internal/cache/vary.go:31-38 | true exactly when a trimmed field is a star |
| VaryKeys.VariantCore | internal/cache/vary.go:108-191 | the bounded form, with its two fallbacks, gives the same key |
| VaryKeys.VariantIgnoresSpelling | internal/cache/vary.go:108-191 | two values with the same fields in any order, case and spacing (section 4.1 of RFC 9111) give one key if and only if neither or both are empty or the empty name is excluded |
| VaryKeys.BlankIsNotEmpty | internal/cache/vary.go:109-111 | a blank value has the fields of the empty one and, exactly unless the empty name is excluded, another key |
| VaryKeys.AssertionInto | internal/cache/key.go:697-736 | as much of the assertion bytes as fits, and their full length |
| VaryKeys.AssertionSlow | internal/cache/key.go:680-692 | the assertion bytes at every length |
| VaryKeys.TrimAscii | internal/cache/key.go:657-672 | the trimmed string, refused exactly for non-ASCII bytes |
| VaryKeys.AssertionFast | internal/cache/key.go:588-651 | the same bytes, declined exactly when a stated bound is passed |
| VaryKeys.Dedupe | internal/cache/stream.go:826-832 | deduplicating over the array being read gives the unique elements |
| VaryKeys.DerivedVary | internal/cache/keypolicy.go:466-483 | the sorted listing of the declared fields |
| VaryKeys.EffectiveVary | internal/cache/stream.go:798-834 | the sorted listing of origin and declared fields, or the origin's value when nothing is declared |
| VaryKeys.EffectiveIsDerived | internal/cache/stream.go:798-834 | the two agree if and only if the origin names declared fields only |
| VaryKeys.FlightHeaders | internal/cache/collapse.go:146-156 | the snapshot answers with the declared inputs and nothing else |
| VaryKeys.FlightKeyIsStorageKey | internal/cache/collapse.go:116-156 | then a cold flight is keyed as the variant its response is stored under |
| VaryKeys.FlightSharedIffSameVariant | internal/cache/collapse.go:100-103 | two requests share a cold flight exactly when their variant inputs agree |
| Negotiation.ParseWeight | internal/cache/vary.go:468-485 | the first weight parameter, unless malformed or negative |
| Negotiation.EncodingBucket | internal/cache/vary.go:387-436 | the token of the winner among the trimmed list items |
| Negotiation.BucketIsBest | internal/cache/vary.go:371-382 | the winner has the highest positive weight, br before zstd before gzip; identity exactly when nothing is acceptable |
| Negotiation.ReorderedField | internal/cache/vary.go:387-436 | reordering the list leaves the bucket alone |
| Negotiation.EncodingRebuckets | internal/cache/handler.go:1053-1063 | bucketing the origin-bound value gives the bucket again |
| Negotiation.IsLanguageTag | internal/cache/vary.go:602-628 | true exactly for one to eight subtags of one to eight letters or digits |
| Negotiation.CommentedRuleHolds | internal/cache/vary.go:594-601 | an accepted tag has a primary subtag of two to eight characters if and only if that subtag is not a single one |
| Negotiation.OneCharacterTag | internal/cache/vary.go:602-628 | `x` is accepted |
| Negotiation.LangTagLess | internal/cache/vary.go:576-585 | the strict byte order of the lowered tags |
| Negotiation.LangBucket | internal/cache/vary.go:523-572 | the winner among the trimmed list items, as spelled |
| Negotiation.LanguageIsBest | internal/cache/vary.go:523-572 | the winner has the highest positive weight and is least ignoring case; none exactly when nothing is acceptable |
| Negotiation.LanguageIgnoresOrder | internal/cache/vary.go:523-572 | ignoring case, reordering the list leaves the tag alone |
| Negotiation.ReorderedLanguage | internal/cache/vary.go:523-572 | the same for the field value, split at its commas |
| Negotiation.SpellingNeedsOneSpelling | internal/cache/vary.go:543-561 | the spelling survives every reordering if and only if all items that no other item beats spell their tag alike |
| Negotiation.SpellingFollowsOrder | internal/cache/vary.go:543-561 | `en,EN` and `EN,en` give different spellings |
| Negotiation.LanguageRebuckets | internal/cache/handler.go:1064-1066 | bucketing the origin-bound tag gives it back |

## Left out

- fasthttp, memberlist, tracing, metrics, pools, timers and the store itself: foreign code; the origin body is a list of chunks, the clock and the store's answers are inputs.
- XXH64 and XXH128: hash inputs are compared, the virtual-node hash is an uninterpreted function, and the tagged key spaces are taken to be disjoint.
- Percent-decoding, number parsing, header normalisation and the cookie reductions: uninterpreted functions of one value.
- Unicode case and white space: strings are bytes with ASCII letters and spaces.
- Panic recovery and the in-process upstream fallback of a miss: they only add cases to the settlement proof.
- The refresh half of the batcher: a second copy of the purge half with its own lock and queue.
- The ban codec and single-event frames: the same pieces as the batch frames without the count.
- `Evaluate` and the cacheability, conditional and range rules: case distinctions that add easy members.
- The admin server, dashboard, circuit breaker, retry queue and peer-fetch hints.
- Membership.Cluster.Replay: assumes that no two virtual nodes of the names involved share a point, because otherwise the ring depends on history.
- Ring.RemoveUndoesAddIffDistinct: leaves out the empty node name, because it reads like a point without owner; the two collision lemmas do so too.
- VaryKeys.VariantCore: takes one header lookup for both forms, because the header map the fallback builds is not part of this model.
- Query.CanonicalPermutes: excludes dedup, because the first occurrence of a name then wins by design.
- Codec.RoundTrip: takes a time to be the zero time or 64-bit nanoseconds since the epoch, because instants outside that range and the monotonic reading of the local clock have no encoding.
- Inflight.Table.LoadOrStore: picks the shard by remainder, because the shard count is a power of two.
