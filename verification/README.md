# Proofs about the mirage fork engine, the agent relay and the core data structures

This Dafny project models four parts of the repository and proves how they behave over every input and every run:

- **The mirage fork engine** (`apps/mirage-rs`): the three-tier state database (dirty overrides, a read cache with a
  time to live, upstream), nested snapshots and reverts, diff extraction and re-application, ERC-20 overrides, the
  block and transaction indexes, watch lists with contagion, scenario sets in their sequential and parallel modes,
  the speculative result cache and the multi-version store.
- **The agent relay** (`apps/agent-relay`): the topic bus and the request/response table, as interleavings of their
  lock-protected critical sections.
- **The hand-written data structures** (`src/`): the open-addressing hash table, the LRU cache and the JSON parser.
- **The token-bucket rate limiter**, with `f64` taken as `real`.

State the program changes in place is a class here, and each of its methods is proved equal to a function on values
(`Model()`, `Value()`, `contents`). The theorems are lemmas about those functions and about runs of them.
`dafny verify dfyconfig.toml` checks everything.

Conventions. Addresses, hashes and 256-bit words are natural numbers; saturation, wrap-around and overflow are written
out where the code relies on them. Keccak is a function parameter, injective where a theorem says so. EVM execution is
a deterministic function parameter of the state it can see. Time is a number. A "run" is any finite sequence of
operations; an interleaving is a run of single critical sections.

## Where the code and its promises differ

Each of these is a lemma with the input that shows it, beside the exact or sufficient condition under which the promise holds.

- Sequence numbers in a ring need not ascend, since taking a number and pushing it are separate steps
  (`Bus.PushOrderIsNotNumberOrder`); they do exactly when no two of the publishes the ring still holds cross
  (`BusOrder.RingAscendsIff`; for all the messages ever pushed on a topic: `BusOrder.AscendingIffUncrossed`).
- The rate limiter's documentation says a denied request leaves the refill state alone; it does not
  (`RateLimit.DenialRefills`), except exactly when its buckets exist and are not behind the clock
  (`RateLimit.MethodDenialIsPureIff`, `RateLimit.AuthorDenialIsPureIff`).
- Under threads the window bounds of the limiter can be passed: by a refund (`RateLimitThreads.RefundBreaksPlainBound`),
  and by a late clock reading that refills the bucket for a straggler (`RateLimitThreads.StragglerBreaksPlainBound`; for
  authors: `RateLimitThreads.StragglerBreaksAuthorBound`). With a term for each the bounds hold in every run
  (`RateLimitThreads.MethodWindow`, `RateLimitThreads.AuthorWindow`). If all readings lie in the window, the plain bound is
  safe exactly when no call of the method is in flight at its start (`RateLimitThreads.AlwaysPlainIff`); if readings may be
  late, only at a read budget of one (`RateLimitThreads.AnyPlainIff`), a method without a budget aside in both.
- A snapshot id is reused exactly once the 64-bit counter has saturated (`Dirty.IdsReusedIffSaturated`).
- Overrides of an account self-destructed or re-created between two dirty maps can be lost from the diff
  (`Diffs.SelfDestructIsLost`, `Diffs.RecreatedSlotComesBack`; exactly when: `Diffs.CommitRoundTripIff`).
- With room for some but not all promoted accounts, the watch list depends on hash-map iteration order
  (`Classifier.TightFitDependsOnOrder`; exactly when: `Classifier.OrderFreeIffFits`).
- A contagion parent outside the watch list leaves chains without a root, unless the call is idle
  (`ContagionWatch.RootedIffParentWatched`).
- A transfer to oneself, or one that overdraws without strict balances, adds to the total supply just what the sender
  does not part with (`Erc20.TransferEffect`).
- Prefetching an account or slot puts its overrides into the read cache, where they outlive a revert
  (`HybridDb.PrefetchOutlivesRevert`; exactly when such an answer is right: `HybridDb.PrefetchedAnswerIff`,
  `HybridDb.PrefetchedSlotAnswerIff`).
- Reverting the fork keeps the transactions of the blocks it goes back over (`BlockIndex.RevertLeavesOrphan`); the indexes
  stay in agreement exactly when no transaction takes a number that holds another one (`BlockIndex.RunsAgreeIff`).
- Pruning leaves the canonical hashes of blocks mined over RPC behind (`BlockIndex.MinedBlocksLeak`): the hash index is clean
  exactly as long as no such block has been evicted (`RpcMining.PruningIsCleanIff`).
- A manual watch ignores the cap of the watch list (`ContagionWatch.WatchesPassCap`); the cap holds all along a run exactly
  when each such watch finds its address listed, or room (`ContagionWatch.RunsCappedIff`).
- A write of an incarnation that a later incarnation does not repeat is still materialised
  (`MultiVersion.AbandonedWriteSurvives`; harmless exactly when: `MultiVersion.MaterializeIsSequentialIff`).
- Without a baseline fork, a nonzero snapshot id lets each scenario start from the state the one before it left
  (`Scenarios.WithoutRevertStateLeaks`; a turn starts right exactly when the one before it left the view:
  `Scenarios.UnrevertedTurn`, and a scenario that has a transaction accepted never does: `Scenarios.AcceptedMovesView`), and
  an EVM-level error leaves an empty database for the scenarios after it (`Scenarios.LostDatabaseLeaks`; exactly when a turn
  restores its state: `Scenarios.RevertRestoresIff`, with `Scenarios.LostIff`).
- An invalidation for writes does not make the next speculation fresh: EVM runs record no reads, and the storage baseline
  of the block stays (`SpeculativeReads.WritesDoNotRefresh`; exactly when it is fresh:
  `SpeculativeReads.FreshAfterChangeIff`). An invalidation for the block does (`SpeculativeReads.BlockInvalidationRefreshes`).
- A contract creation and a call to the zero address share a speculative cache key (`Speculative.CreationHidesZeroCall`;
  no other requests do: `SpeculativeKey.KeyBytesCollideIff`), and speculation never sees the strictness flags
  (`Speculative.StrictnessIsIgnored`, `SpeculativeReads.StrictForkDisagrees`): it answers as the fork itself exactly when none
  is set (`SpeculativeReads.FreshIsTheForksIff`).
- The JSON parser takes trailing commas (`JsonText.TrailingCommaIsRead`) and any Unicode whitespace, and refuses surrogate
  pairs (`JsonText.SurrogatePairIsRefused`) and raw U+007F to U+009F; on RFC 8259 texts nothing else
  (`JsonText.StrictIsReadIffClean`).

## Model

| member | source | states |
|---|---|---|
| HashTable.HashMap.Get | src/hashmap.rs:46-58 | on every valid table, tombstones and full tables included, the answer is the plain map's |
| HashTable.HashMap.Remove | src/hashmap.rs:60-78 | removes exactly that binding, returns its value, leaves every other probe chain intact and stays under the load limit |
| HashTable.HashMap.InsertInternal | src/hashmap.rs:80-113 | binds the key and returns the old value; grows only when no slot at all is free, so the recursion ends |
| HashTable.HashMap.Resize | src/hashmap.rs:115-123 | doubles the buckets, keeps the contents and drops all tombstones |
| HashTable.HashMap.Insert | src/hashmap.rs:38-44 | the plain map update, under 70% load afterwards, with growth exactly when the load test asks for it |
| HashTable.HashMap.WithCapacity | src/hashmap.rs:22-28 | an empty table with the next power of two of buckets |
| HashTable.Absent | src/hashmap.rs:46-58 | a probe that ends at an Empty slot, or has seen every slot, proves the key absent |
| HashTable.OccupiedCountsMap | src/hashmap.rs:30-32 | with unique keys, the number of occupied slots is the size of the map |
| HashTable.PlaceKeepsTable | src/hashmap.rs:80-113 | a new key, put on its probe path before any Empty slot, keeps all chains and adds just its binding |
| HashTable.TombstoneKeepsTable | src/hashmap.rs:60-78 | turning a slot into a tombstone removes one binding and breaks no probe chain |
| HashTable.FullTableCount | src/hashmap.rs:80-113 | a search of the whole ring meets neither an Empty nor a Deleted slot only when the table is full |
| HashTable.DrainedAll | src/hashmap.rs:115-123 | what the drain loop has re-inserted at its end is the whole map |
| HashTable.Run | src/hashmap.rs:22-123 | for every hash function, capacity and run of insert, get and remove, all answers are those of a plain map |
| LruCacheClass.LruCache.Put | src/cache.rs:35-57 | the in-place insertion with eviction equals the value function, capacity zero included |
| Lru.PutWf | src/cache.rs:35-57 | order and entries keep the same distinct keys and never outgrow the capacity |
| Lru.GetKeepsIncluded | src/cache.rs:22-33 | a shared get keeps a smaller cache included in a larger one |
| Lru.PutKeepsIncluded | src/cache.rs:35-57 | a shared put, with whatever evictions it causes, keeps a smaller cache included in a larger one |
| Lru.InclusionOverRuns | src/cache.rs:22-57 | on every shared trace the larger cache holds each key of the smaller with the same value, in an order the smaller's is a subsequence of |
| Lru.HitsAreIncluded | src/cache.rs:22-33 | a hit in a smaller cache is a hit with the same value in a larger one |
| Lru.RecencyByLastOccurrence | src/cache.rs:22-57 | the reference recency list has each touched key once, sorted by its last touch |
| Lru.OrderIsRecency | src/cache.rs:22-57 | after every run, the order is exactly the last at-most-capacity distinct keys among puts and hits |
| Lru.EntriesAreLatest | src/cache.rs:35-57 | every cached value is the latest one put under its key |
| Json.Value | src/json.rs:41-54 | every value read consumes at least one character, which is why the parser terminates |
| Json.Chars | src/json.rs:94-123 | every string read consumes at least its closing quote |
| JsonParser.ParseJson | src/json.rs:25-33 | the parser in place answers as the functions do, trailing characters refused, with the byte position of every error |
| JsonText.PiecesRead | src/json.rs:94-123 | the inside of a string, spelled with any mix of raw characters and escapes, is read to its meaning if clean and refused if not |
| JsonText.NumberRead | src/json.rs:125-145 | every section 6 lexeme is read whole, whatever may follow a number |
| JsonText.ValueRead | src/json.rs:41-92 | every document, with any layout, is read to its meaning if clean and refused if not |
| JsonText.ValueFound | src/json.rs:41-92 | conversely every value read was spelled by a clean document that means it |
| JsonText.SpelledIsRead | src/json.rs:25-33 | a whole text is read to its meaning exactly when it is clean |
| JsonText.ParsesIffSpelled | src/json.rs:25-163 | the parser answers v exactly on the spellings of documents that mean v: its language, characterised both ways |
| JsonText.TablesAgree | src/json.rs:94-163 | the parser's escapes, hexadecimal digits, digits, whitespace and control characters are those of RFC 8259, section 7, and Unicode, given by code point; the grammar and its meaning use the latter |
| JsonText.StrictIsReadIffClean | src/json.rs:25-163 | an RFC 8259 text is accepted if and only if it has no raw U+007F to U+009F and no surrogate escape, and then means what it should |
| JsonText.PrintThenParse | src/json.rs:25-163 | every value prints to an RFC 8259 text that parses back to that value |
| JsonText.TrailingCommaIsRead | src/json.rs:56-71 | after any item a trailing comma is accepted |
| JsonText.SurrogatePairIsRefused | src/json.rs:94-123 | every surrogate pair written with escapes is refused |
| JsonErrors.BlankIsRefused | src/json.rs:41-54 | a text of whitespace ends too early |
| JsonErrors.TrailingIsRefused | src/json.rs:25-33 | what follows a clean document and its whitespace is refused where it starts |
| JsonErrors.UnclosedIsRefused | src/json.rs:94-123 | a string that ends after any clean pieces, or after a backslash, is refused as unterminated |
| JsonErrors.ControlIsRefused | src/json.rs:94-123 | after any clean pieces a control character is refused, just read |
| JsonErrors.UnknownEscapeIsRefused | src/json.rs:94-123 | so is an escape that is not in the table |
| JsonErrors.SurrogateIsRefused | src/json.rs:147-154 | and an escaped surrogate, its four digits read |
| JsonErrors.SeparatorIsRefused | src/json.rs:56-71 | after any items anything but a comma or the bracket is refused where it stands |
| JsonErrors.KeyIsMissing | src/json.rs:73-92 | in an object anything but a quote or the brace is refused for a key |
| JsonErrors.ColonIsMissing | src/json.rs:73-92 | after a key anything but a colon is refused |
| JsonErrors.MemberSeparatorIsRefused | src/json.rs:73-92 | after a member anything but a comma or the brace is refused where it stands |
| JsonErrors.UnexpectedIsRefused | src/json.rs:41-54 | a character no value starts with is refused where it stands |
| JsonErrors.MisspeltIsRefused | src/json.rs:156-158 | a misspelt literal is refused at its first letter |
| JsonErrors.DigitIsMissing | src/json.rs:125-145 | a number whose point, mark or sign of an exponent no digit follows is refused right there |
| RateLimit.RateLimiter.CheckMethod | apps/mirage-rs/src/rate_limit.rs:351-396 | the whole check over both bucket maps, with first-sight buckets and the refund, equals the value function |
| RateLimit.ReportedDelaySuffices | apps/mirage-rs/src/rate_limit.rs:237-253 | waiting the reported delay makes the next consume succeed, for any capacity of at least one |
| RateLevels.ReportedDelayIsLeast | apps/mirage-rs/src/rate_limit.rs:237-253 | of all whole milliseconds the reported delay is the first after which the consume passes |
| RateLimit.CheckKeepsValid | apps/mirage-rs/src/rate_limit.rs:351-396 | every bucket stays between zero and its capacity |
| RateLimit.DeniedCallCostsNothing | apps/mirage-rs/src/rate_limit.rs:351-396 | a denied call, refund path included, leaves both buckets at their refilled level |
| RateLimit.MethodDenialIsPureIff | apps/mirage-rs/src/rate_limit.rs:361-371 | a call the method budget refuses leaves the limiter as it was if and only if its bucket exists and was refilled no earlier than now |
| RateLimit.AuthorDenialIsPureIff | apps/mirage-rs/src/rate_limit.rs:374-391 | a call the author quota refuses does so if and only if that holds of both buckets |
| RateLimit.DenialRefills | apps/mirage-rs/src/rate_limit.rs:237-253 | a run after which a denial moves both the level and the clock of a bucket, against the documentation |
| RateLimit.MethodPays | apps/mirage-rs/src/rate_limit.rs:351-396 | a permitted call costs its method exactly one token and no other call costs that method anything |
| RateLimit.AuthorPays | apps/mirage-rs/src/rate_limit.rs:351-396 | a permitted write costs its author one token and nothing else does |
| RateLimit.MethodAllowance | apps/mirage-rs/src/rate_limit.rs:351-396 | in any run the calls let through for a method are bounded by its balance at the start |
| RateLimit.MethodWindowBound | apps/mirage-rs/src/rate_limit.rs:203-230 | after any history, a method passes at most cap + cap * T times in any window of T seconds |
| RateLimit.AuthorWindowBound | apps/mirage-rs/src/rate_limit.rs:320-396 | after any history, an author writes at most quota + quota * T / 3600 times in any window of T seconds |
| RateLevels.Classes | apps/mirage-rs/src/rate_limit.rs:81-102 | the known names are writes, subscriptions or reads as listed, and every other name is a read |
| RateLevels.LetThroughIff | apps/mirage-rs/src/rate_limit.rs:351-396 | a call is let through if and only if it is a subscription, or its method has a token at hand and, for a write with an author, so has the author; otherwise the denial names the budget that is short |
| RateLevels.MethodLevelAfter | apps/mirage-rs/src/rate_limit.rs:351-396 | a method's level after a call: one less for its own call if let through, refilled since at its budget a second up to its budget; the budget is the override, else that of writes or of reads |
| RateLevels.AuthorLevelAfter | apps/mirage-rs/src/rate_limit.rs:320-396 | an author's level: one less for each write let through, refilled at the quota an hour |
| RateLevels.BurstPasses | apps/mirage-rs/src/rate_limit.rs:351-396 | of calls without an author at one instant as many pass as there are whole tokens |
| RateLevels.NewLimiterPasses | apps/mirage-rs/src/rate_limit.rs:285-294 | so a new limiter lets through the override, else the write or the read budget, and every subscription |
| RateLimitThreads.UninterruptedIsCheck | apps/mirage-rs/src/rate_limit.rs:351-396 | the three locked sections of a call, uninterrupted, are the whole check |
| RateLimitThreads.MethodWindow | apps/mirage-rs/src/rate_limit.rs:351-396 | in every interleaving and for any clock readings: of the calls with a reading in a window of T seconds at most limit + limit * T keep their token, plus one for each other call that gives its own back, plus limit - 1 for each reading after the window |
| RateLimitThreads.PlainMethodWindow | apps/mirage-rs/src/rate_limit.rs:351-396 | so the plain bound holds for each run with no later reading and no other call giving back |
| RateLimitThreads.QuietMethodWindow | apps/mirage-rs/src/rate_limit.rs:351-396 | with all readings of the method in the window and none of its calls in flight at the start, the plain bound holds |
| RateLimitThreads.AlwaysPlainIff | apps/mirage-rs/src/rate_limit.rs:351-396 | over all limiters and all runs with their readings in the window, the plain bound is safe if and only if no call of the method is in flight at the start, or the method has no budget |
| RateLimitThreads.AnyPlainIff | apps/mirage-rs/src/rate_limit.rs:203-230 | over all limiters and all runs with any readings, the plain bound is safe if and only if the method has no budget, or is a read of one a second with no call in flight at the start |
| RateLimitThreads.AuthorWindow | apps/mirage-rs/src/rate_limit.rs:374-391 | in every interleaving and for any clock readings an author's writes with a reading in a window of T seconds number at most quota + quota * T / 3600, plus quota - 1 for each write with a reading after it |
| RateLimitThreads.RefundBreaksPlainBound | apps/mirage-rs/src/rate_limit.rs:374-391 | a run in which a refund lets two calls of a one-a-second method through at one instant |
| RateLimitThreads.StragglerBreaksPlainBound | apps/mirage-rs/src/rate_limit.rs:215-230 | a run of four allowed calls in which a late reading refills the bucket and three calls with one early reading pass at two a second |
| RateLimitThreads.StragglerBreaksAuthorBound | apps/mirage-rs/src/rate_limit.rs:374-391 | the same for an author: three writes with one early reading pass at a quota of two an hour |
| Bus.TopicBus.Publish | apps/agent-relay/src/bus.rs:92-115 | run alone, takes a number, pushes to a ring cut to its capacity and returns the subscribers |
| Bus.RingIsLastPushes | apps/agent-relay/src/bus.rs:92-115 | in every interleaving each ring is the last max(1, capacity) pushes on its topic |
| Bus.ReplayHolds | apps/agent-relay/src/bus.rs:92-115 | a pushed message stays in its ring until max(1, capacity) others on its topic have followed |
| Bus.SubscriptionLasts | apps/agent-relay/src/bus.rs:49-85 | a subscription lasts until somebody removes it, in every interleaving |
| BusMembers.SinceIffSubscribed | apps/agent-relay/src/bus.rs:49-85 | an agent stands subscribed if and only if it asked for the topic and nobody took it off since |
| BusMembers.SubscribersBySeniority | apps/agent-relay/src/bus.rs:49-85 | in every interleaving the list of a topic holds just the standing subscribers, the longest standing first |
| BusMembers.FanOutIsTheSubscribed | apps/agent-relay/src/bus.rs:68-115 | a fan-out goes to exactly those, each once: not to an agent taken off until it subscribes again, and to the others still |
| BusMembers.TopicsHaveSubscribers | apps/agent-relay/src/bus.rs:68-85 | no topic is kept without a subscriber |
| Bus.NoLostMessage | apps/agent-relay/src/bus.rs:49-115 | in every interleaving a subscriber left out of a fan-out finds the message in its replay, unless max(1, capacity) later ones were pushed first |
| Bus.NumbersAreUnique | apps/agent-relay/src/bus.rs:92-115 | until the counter wraps, no two messages share a sequence number |
| Bus.PushOrderIsNotNumberOrder | apps/agent-relay/src/bus.rs:92-115 | a legal run whose ring holds number 2 before number 1 |
| BusOrder.AscendingIffUncrossed | apps/agent-relay/src/bus.rs:92-115 | over every legal run below the wrap, all the messages ever pushed on a topic ascend in number if and only if no two publishes on it are pushed in the opposite order to the one they took their numbers in |
| BusOrder.RingAscendsIff | apps/agent-relay/src/bus.rs:92-115 | the ring ascends if and only if no two of the publishes whose messages it still holds cross so |
| BusOrder.OneAtATimeAscends | apps/agent-relay/src/bus.rs:92-115 | at most one publish in flight per topic keeps the topic and its ring in number order |
| Relay.RelayState.UnregisterAgent | apps/agent-relay/src/state.rs:151-189 | with the current session removes the agent, its feeds and its pending messages, and reports exactly those; otherwise nothing |
| Relay.RelayState.BeginMessage | apps/agent-relay/src/state.rs:191-237 | unknown agents are refused, and a failed delivery leaves no pending entry |
| Relay.StepKeepsInv | apps/agent-relay/src/state.rs:84-258 | every critical section keeps: pending messages belong to registered agents and are not yet settled or rolled back |
| Relay.ReachableInv | apps/agent-relay/src/state.rs:84-258 | so in every reachable state; each begun message is settled or rolled back at most once |
| Relay.UnregisterLeavesNoWaiter | apps/agent-relay/src/state.rs:151-189 | after an accepted unregistration every message begun for that agent is settled or rolled back exactly once |
| Relay.OldSessionsCannotEvict | apps/agent-relay/src/state.rs:151-189 | a registration stays current until it is unregistered itself or replaced, whatever older sessions do |
| Relay.SupersededUnregister | apps/agent-relay/src/state.rs:151-189 | an unregistration with a superseded session changes nothing at all, in any reachable state |
| RelayHistory.CurrentIff | apps/agent-relay/src/state.rs:84-189 | a session is current for an agent if and only if it registered it and neither a newer registration nor its own end came since |
| RelayHistory.WaitingIff | apps/agent-relay/src/state.rs:151-258 | a message waits for an agent if and only if it was begun to it while registered and no failed send, answer or accepted unregistration has ended the wait |
| RelayHistory.FeedsAreReported | apps/agent-relay/src/state.rs:151-189 | an agent's feeds are those last reported, unless it has been unregistered since |
| Dirty.DirtyStore.DoRevert | apps/mirage-rs/src/fork.rs:300-311 | restores the captured layer and count and drops that id and all later ones; a dead id changes nothing |
| Dirty.DirtyStore.ApplyStateDiff | apps/mirage-rs/src/fork.rs:323-342 | the loops over accounts and slots, in any order, give the merged maps and keep the slot count exact |
| Dirty.DirtyStore.Commit | apps/mirage-rs/src/fork.rs:851-886 | an EVM commit in place gives each account just what the change set says of it, and keeps the slot count exact |
| Dirty.CommitIffShown | apps/mirage-rs/src/fork.rs:851-886 | a commit leaves the one map in which: a touched account has the new balance and nonce, each changed slot its present value, every other slot and the code what they were, or nothing if it was created, and new code its hash; destroyed accounts are gone and the rest untouched |
| Dirty.SlotSumUpdate | apps/mirage-rs/src/fork.rs:323-342 | replacing one account moves the sum of dirty slots by the difference of its slots |
| Dirty.IdsBelowNext | apps/mirage-rs/src/fork.rs:278-311 | over every run the live ids stay below the next one, which never falls |
| Dirty.NextIdCounts | apps/mirage-rs/src/fork.rs:278-293 | the next id is the number of snapshots ever taken, capped, whatever was reverted or cleared |
| Dirty.IdsReusedIffSaturated | apps/mirage-rs/src/fork.rs:278-293 | two snapshots of a run get the same id if and only if the counter had saturated before the first |
| Dirty.SaturationIsReached | apps/mirage-rs/src/fork.rs:278-293 | some run reaches any count, the saturated one included |
| Dirty.LiveIdRestores | apps/mirage-rs/src/fork.rs:300-311 | in any run of mutations, snapshots and reverts, reverting to a live id restores exactly what was there when the last snapshot of that id was taken |
| Dirty.RevertKillsLater | apps/mirage-rs/src/fork.rs:300-311 | a revert kills its id and all later ones and leaves what earlier ones restore |
| Dirty.IdStaysLive | apps/mirage-rs/src/fork.rs:278-320 | an id stays live until a clear, or a revert to it or to an earlier live id |
| Dirty.LiveIff | apps/mirage-rs/src/fork.rs:278-320 | an id is live if and only if some snapshot was handed it and no clear, or revert to it or an earlier live id, came since |
| Dirty.ClearForgets | apps/mirage-rs/src/fork.rs:314-320 | a clear leaves no override, list, count or live id, and hands out no old id again |
| Diffs.AccountRoundTrip | apps/mirage-rs/src/fork.rs:1463-1506 | one account survives extraction and re-application if and only if no override of it was dropped and its code hash is that of its code |
| Diffs.DiffRoundTrip | apps/mirage-rs/src/fork.rs:1508-1530 | applying the extracted diff gives the second map if and only if nothing was lost between the two |
| Diffs.DiffHoldsOnlyChanges | apps/mirage-rs/src/fork.rs:1463-1530 | the diff holds an account, field or slot exactly when it changed to a present value |
| Diffs.CommitRoundTripIff | apps/mirage-rs/src/fork.rs:851-886 | across an EVM commit the round trip holds if and only if every touched dirty account that is destroyed had no overrides, and every re-created one writes all its slots again, and its code unless it had none |
| Diffs.CommitRoundTrip | apps/mirage-rs/src/fork.rs:851-886 | so it holds unless a dirty account is destroyed or re-created |
| Diffs.RecreatedSlotComesBack | apps/mirage-rs/src/fork.rs:1508-1530 | a slot that a re-created account does not write again comes back through the diff |
| Diffs.LayersFollowCode | apps/mirage-rs/src/fork.rs:538-544 | over every run of writes, diffs, commits and reverts, an override of code carries its hash |
| Diffs.SelfDestructIsLost | apps/mirage-rs/src/fork.rs:1508-1530 | a destroyed dirty account leaves no trace in the diff, so its overrides come back |
| Classifier.ApplyTo | apps/mirage-rs/src/fork.rs:440-473 | the in-place loop over the diff equals the function for every visiting order |
| Classifier.CapHolds | apps/mirage-rs/src/fork.rs:440-473 | the list never outgrows its cap and no entry in it is changed |
| Classifier.AppliedIs | apps/mirage-rs/src/fork.rs:402-473 | in any order: only accounts with a change, at least the threshold of slots written, one of them below 20 where tokens are checked for, not unwatched and not demoted get in, each with its slot count; all of them if and only if they fit, when the call succeeds, else as many as there is room for |
| Classifier.FittingIsOrderFree | apps/mirage-rs/src/fork.rs:440-473 | with room for every promoted account the result is the same for every visiting order |
| Classifier.TightFitDependsOnOrder | apps/mirage-rs/src/fork.rs:440-473 | with room for some only, two visiting orders give two different lists |
| Classifier.OrderFreeIffFits | apps/mirage-rs/src/fork.rs:440-473 | independence of the visiting order, if and only if all fit or the list is already full |
| HybridDb.HybridDB.ReadBasic | apps/mirage-rs/src/fork.rs:714-741 | the in-place account read through the three tiers equals the value function |
| HybridDb.HybridDB.EvictReadCacheTo | apps/mirage-rs/src/fork.rs:182-195 | the eviction loop ends with at most the target number of entries |
| HybridDb.BasicIsRecent | apps/mirage-rs/src/fork.rs:714-741 | an account read is, field by field, the override where present, else what upstream holds now; without overrides, a value upstream had less than the time to live ago |
| HybridDb.OverriddenIsUnique | apps/mirage-rs/src/fork.rs:714-741 | those field clauses leave no choice of answer |
| HybridDb.FullyOverridden | apps/mirage-rs/src/fork.rs:714-741 | in a reachable layer an account with balance, nonce and code overridden shows the hash of its own code, never the default one |
| HybridDb.StorageIsRecent | apps/mirage-rs/src/fork.rs:777-791 | a slot read is the override where present, else a value upstream had less than the time to live ago |
| HybridDb.EvictShrinks | apps/mirage-rs/src/fork.rs:182-195 | eviction keeps every remaining entry truthful and reaches its target |
| HybridCache.EvictIs | apps/mirage-rs/src/fork.rs:182-195 | it leaves exactly the target, or all there was: block hashes kept first, then storage, then accounts, and of each the most recently used |
| HybridCache.AccountIsServed | apps/mirage-rs/src/fork.rs:89-104 | a new database asked twice for an account: the first answer holds within the time to live, then upstream is asked again |
| HybridCache.SlotIsServed | apps/mirage-rs/src/fork.rs:777-791 | the same for a slot |
| HybridCache.HashIsServed | apps/mirage-rs/src/fork.rs:798-806 | a block hash holds for ever |
| HybridDb.StepStaysSound | apps/mirage-rs/src/fork.rs:57-195 | in all three caches order and entries stay in step through every operation, so the entry count and the eviction loop agree |
| HybridDb.PrefetchAccountFaithfulIff | apps/mirage-rs/src/rpc.rs:2537-2547 | a prefetched account keeps the cache truthful if and only if no override in force differs from upstream |
| HybridDb.PrefetchSlotFaithfulIff | apps/mirage-rs/src/rpc.rs:2548-2569 | the same for a prefetched slot |
| HybridDb.PrefetchOutlivesRevert | apps/mirage-rs/src/rpc.rs:2537-2547 | an account prefetched while overridden is served with its overrides after they are gone, as long as the time to live lasts |
| HybridDb.PrefetchedAnswerIff | apps/mirage-rs/src/rpc.rs:2537-2547 | that answer is acceptable if and only if upstream itself held the value within the time to live |
| HybridDb.PrefetchedSlotAnswerIff | apps/mirage-rs/src/rpc.rs:2548-2569 | the same for a prefetched slot override |
| HybridDb.ReadsAreRecent | apps/mirage-rs/src/fork.rs:57-195 | for any upstream history and any interleaving of reads, writes, harmless prefetches, expiry and eviction, every answer is acceptable in that sense |
| HybridDb.NewDatabaseReadsAreRecent | apps/mirage-rs/src/fork.rs:57-195 | so in particular of a database that starts with an empty cache, with no promise about the cache |
| HybridDb.CacheIsInvisible | apps/mirage-rs/src/fork.rs:714-791 | with a fixed upstream and harmless prefetches every run answers as the database without a cache does |
| HybridDb.NewDatabaseCacheIsInvisible | apps/mirage-rs/src/fork.rs:714-791 | so in particular a database that starts with an empty cache |
| Erc20.Token.DoTransfer | apps/mirage-rs/src/fork.rs:1757-1869 | the balance part of a transfer equals the value function, strict refusal included |
| Erc20.ReadIsCoherent | apps/mirage-rs/src/fork.rs:607-645 | reading keeps the token coherent and returns the tracked balance, or zero |
| Erc20.BalanceSlotIs | apps/mirage-rs/src/fork.rs:567-598 | on any token the balance slot is the memoised one, else the known one, else the least of 0 to 7 with a balance of the owner, and is memoised |
| Erc20.SetKeepsCoherent | apps/mirage-rs/src/fork.rs:653-683 | setting a balance keeps slot 1 the sum of all balances and each mapping slot equal to its balance, while the sum fits |
| Erc20.TransferEffect | apps/mirage-rs/src/fork.rs:1757-1869 | a transfer keeps coherence unless what it mints overflows the supply; a refused one changes no balance, an accepted one adds all of a self-transfer and what the sender does not hold, so it keeps the supply if and only if the amount is zero, or the accounts differ and the sender can pay |
| Erc20.AcceptedIff | apps/mirage-rs/src/fork.rs:1757-1785 | a transfer is accepted if and only if both balances can be read and, if balances are strict, the sender can pay |
| Erc20.CoveredTransferMoves | apps/mirage-rs/src/fork.rs:1757-1869 | with a memoised slot a covered strict transfer goes through and moves exactly its amount |
| Erc20.RunsAreCoherent | apps/mirage-rs/src/fork.rs:567-683 | from an all-zero token, coherence over any run in which the supply, with what each step adds, fits a word; strict transfers that are refused, or between distinct accounts, need no such promise |
| Erc20.StrictRunsConserve | apps/mirage-rs/src/fork.rs:1757-1869 | strict transfers between distinct accounts, of any amounts, covered or refused, conserve the supply over any run |
| BlockIndex.ForkIndexes.FinalizeTransaction | apps/mirage-rs/src/fork.rs:2101-2158 | the in-place bookkeeping of one transaction equals the value function |
| BlockIndex.PopDropsOldest | apps/mirage-rs/src/fork.rs:1146-1156 | popping drops exactly the oldest block of the history from all four indexes |
| BlockIndex.FinalizeKeepsRecent | apps/mirage-rs/src/fork.rs:2101-2158 | one more transaction keeps the indexes equal to those of the last at-most-1000 blocks |
| BlockIndex.IndexesHoldRecentHistory | apps/mirage-rs/src/fork.rs:1146-1156 | over every run without revert the four indexes are exactly those of the last at-most-1000 stored blocks |
| BlockIndex.RunsAgree | apps/mirage-rs/src/fork.rs:2101-2158 | over every run without revert the four indexes agree with each other |
| BlockIndex.RequestsAreReported | apps/mirage-rs/src/fork.rs:2101-2158 | over every run without revert each request is on record, with its parties, gas and own outcome, if and only if it is one of the last 1000 |
| BlockIndex.FinalizeAgreesIff | apps/mirage-rs/src/fork.rs:2101-2158 | one transaction on agreeing indexes keeps them agreeing if and only if its block number is free or held by that very transaction |
| BlockIndex.RunsAgreeIff | apps/mirage-rs/src/fork.rs:1110-1156 | over every run with reverts the indexes agree all along if and only if no transaction takes a block number that holds another one |
| BlockIndex.RevertLeavesOrphan | apps/mirage-rs/src/fork.rs:1110-1114 | after a revert, a block stored under the same number leaves the old transaction indexed but in no block |
| BlockIndex.MinedBlocksLeak | apps/mirage-rs/src/rpc.rs:2292-2328 | however many blocks are mined over RPC, pruning keeps the last 1000 numbers but leaves every canonical hash behind |
| RpcMining.PruningIsCleanIff | apps/mirage-rs/src/fork.rs:1146-1156 | over every run of transactions, mined blocks and blocks mined over RPC, no hash leads to a forgotten block if and only if no block mined over RPC has been evicted |
| RpcMining.MinedIsCleanIff | apps/mirage-rs/src/rpc.rs:2292-2328 | of blocks mined over RPC alone, that is so for the first 1000 and no more |
| ContagionWatch.WatchDepth | apps/mirage-rs/src/replay.rs:640-657 | the loop terminates on every map, cyclic ones included, and counts the contagion hops |
| ContagionWatch.DepthIsChainLength | apps/mirage-rs/src/replay.rs:640-657 | for an address whose chain reaches a root, the answer is the length of that chain |
| ContagionWatch.ChainIsAcyclic | apps/mirage-rs/src/replay.rs:640-657 | a chain that reaches a root never comes back to where it started |
| ContagionWatch.ApplyContagionWatchers | apps/mirage-rs/src/replay.rs:589-638 | the in-place loop over the diff equals the function, depth and capacity limits included |
| ContagionWatch.SpreadKeepsRooted | apps/mirage-rs/src/replay.rs:589-638 | a watched parent keeps every chain rooted within the depth limit |
| ContagionWatch.SpreadAddsNothingIff | apps/mirage-rs/src/replay.rs:589-638 | the loop adds nothing if and only if there is nothing to catch, the parent is too deep, or the list is full |
| ContagionWatch.ContagionAddsNothingIff | apps/mirage-rs/src/replay.rs:589-638 | the whole call adds nothing if and only if that holds, or protocols are demoted, or contagion is off |
| ContagionWatch.ContagionIs | apps/mirage-rs/src/replay.rs:589-638 | from a parent whose chain is rooted, in any order: nothing if switched off or too deep, else all newcomers under that parent if and only if they fit, otherwise as many as there is room for |
| ContagionWatch.RootedIffParentWatched | apps/mirage-rs/src/replay.rs:589-638 | chains stay rooted if and only if that guard holds, there is no parent, or the parent is already watched |
| ContagionWatch.WatchKeepsRooted | apps/mirage-rs/src/rpc.rs:2573-2581 | a manual watch, which may overwrite an entry, only shortens chains |
| ContagionWatch.RunsStayRooted | apps/mirage-rs/src/replay.rs:589-638 | over every run of replays, manual watches and classifications with watched parents, all chains are rooted within the limit |
| ContagionWatch.RunDepths | apps/mirage-rs/src/replay.rs:640-657 | then every watched address has a depth within the limit, equal to its chain length, and no cycle |
| ContagionWatch.ReplayIs | apps/mirage-rs/src/replay.rs:589-638 | a replay takes in all the newcomers of its diff when they fit, and else leaves the list as it was |
| ContagionWatch.ManualStays | apps/mirage-rs/src/rpc.rs:2573-2581 | what was watched by hand stays listed as that, whatever follows |
| ContagionWatch.RunsKeepCap | apps/mirage-rs/src/replay.rs:589-638 | replays alone never push the list past its cap, whatever the parents |
| ContagionWatch.RunsKeepWatchedCap | apps/mirage-rs/src/rpc.rs:2573-2581 | over every run the list is at most its cap plus the number of manual watches, which are not checked against it |
| ContagionWatch.WatchesPassCap | apps/mirage-rs/src/rpc.rs:2573-2581 | manual watches alone bring it to any size |
| ContagionWatch.RunsCappedIff | apps/mirage-rs/src/rpc.rs:2573-2581 | the list stays within its cap all along a run if and only if every manual watch finds its address listed already, or room |
| Cow.CowState.Write | apps/mirage-rs/src/cow.rs:30-40 | a write is read back on its branch and hides nothing else; the baseline is untouched |
| Cow.FreezeCells | apps/mirage-rs/src/scenario.rs:449-457 | the nested loops freeze exactly the dirty slots |
| Cow.Materialize | apps/mirage-rs/src/scenario.rs:460-514 | the nested loops over a branch rebuild every account with the slots the branch can read, its own writes included |
| Cow.RebuildIffCurrent | apps/mirage-rs/src/scenario.rs:460-514 | rebuilding gives the accounts back if and only if the frozen cells still hold every dirty slot |
| Scenarios.BalanceDelta | apps/mirage-rs/src/scenario.rs:726-750 | the saturating folds give the difference of the clamped sums whatever the iteration order |
| Scenarios.RunScenario | apps/mirage-rs/src/scenario.rs:623-706 | the loop with its early exits, the deadline among them, gives the result and fork of the recursive definition |
| ScenarioTrace.ScenarioReports | apps/mirage-rs/src/scenario.rs:623-706 | the first transaction without a sender, refused, reverted, over the gas limit or late ends the scenario and decides its status, reason and view; if there is none the assertions do; gas, logs, account and slot counts and the ledger are those of the transactions up to there |
| ScenarioTrace.SuccessIff | apps/mirage-rs/src/scenario.rs:623-706 | a scenario is successful if and only if every transaction passes and the assertions hold |
| ScenarioTrace.ReportedFigures | apps/mirage-rs/src/scenario.rs:687-706 | the profit is the clamped sum of the tracked balances at the end less that at the start |
| Scenarios.RunSet | apps/mirage-rs/src/scenario.rs:516-543 | the sequential loop gives the results and the fork of the recursive definition |
| Scenarios.RunParallel | apps/mirage-rs/src/scenario.rs:407-445 | freezing once, then one branch and one materialised fork a scenario, gives the parallel results |
| Scenarios.CowForkSameView | apps/mirage-rs/src/scenario.rs:460-514 | the copy-on-write fork shows execution the template's dirty layer, flags and block environment exactly |
| Scenarios.SameViewSameResult | apps/mirage-rs/src/scenario.rs:623-706 | forks with equal views give equal results whatever orders their hash maps iterate in, if they time out alike and the watch list is never tight |
| Scenarios.BaselineModesAgree | apps/mirage-rs/src/scenario.rs:373-445 | with a baseline fork both modes report the same for every scenario and snapshot id, if they time out alike |
| Scenarios.RevertRestoresIff | apps/mirage-rs/src/scenario.rs:516-543 | snapshot, run, revert restores the view if and only if no database was lost, or the view was already that of an empty one |
| Scenarios.LostIff | apps/mirage-rs/src/fork.rs:1994-2014 | a scenario loses the database if and only if it reaches a transaction that the EVM refuses with an error |
| Scenarios.SnapshotModesAgree | apps/mirage-rs/src/scenario.rs:516-543 | with snapshot id 0 and no database lost the modes agree and the live view is as before |
| Scenarios.UnrevertedTurn | apps/mirage-rs/src/scenario.rs:516-543 | with any other id and no baseline fork a turn reports what its task does, and the next one starts from the live view if and only if the scenario left it as it found it |
| Scenarios.AcceptedMovesView | apps/mirage-rs/src/scenario.rs:623-706 | if accepted transactions move the block number, a scenario that has one accepted moves the view; with refusals and assertions that leave the layer, one without leaves it unless its database is lost |
| Scenarios.UnrevertedModesAgree | apps/mirage-rs/src/scenario.rs:516-543 | so the modes agree on every set whose scenarios, except the last, leave the view |
| Scenarios.WithoutRevertStateLeaks | apps/mirage-rs/src/scenario.rs:516-543 | with any other id and no baseline fork the modes differ on two equal value transfers: the second finds the money of the first |
| Scenarios.LostDatabaseLeaks | apps/mirage-rs/src/fork.rs:1994-2014 | a call below the price of a transaction leaves the placeholder database, and the next scenario no longer runs the local code |
| SpeculativeKey.KeyBytesCollideIff | apps/mirage-rs/src/replay.rs:963-977 | two requests have the same key bytes if and only if they differ at most in creation against a call to the zero address |
| Speculative.SpeculativeExecutor.DoExecute | apps/mirage-rs/src/replay.rs:745-803 | the in-place execution, with context, baseline and cache, equals the value function; errors are not cached |
| Speculative.EveryEntryIsExplained | apps/mirage-rs/src/replay.rs:745-883 | in every run with every invalidation, each cached result and the baseline were computed under the current block and timestamp |
| Speculative.FreshIsDirect | apps/mirage-rs/src/replay.rs:885-932 | an uncached speculation is an execution on the state itself, strictness flags apart |
| SpeculativeCache.FreshRunsTheRequest | apps/mirage-rs/src/replay.rs:745-803 | what is run is the request's own sender, target, value, gas and data, or their defaults, and the result has on record just the slots its diff reads and writes |
| SpeculativeCache.CacheHoldsIff | apps/mirage-rs/src/replay.rs:745-850 | after any run a result is cached if and only if some step answered it and nothing dropped it since: no other block or timestamp, no invalidation of its block or request, no write to a slot it has on record |
| SpeculativeCache.InvalidatedIsRunAgain | apps/mirage-rs/src/replay.rs:830-843 | right after the invalidation of a request nothing is cached for it, and it is run again |
| Speculative.ExecuteIsFresh | apps/mirage-rs/src/replay.rs:745-883 | if states of one context agree and keys are distinct, every execution returns what a new executor would |
| Speculative.SpeculationIsCoherent | apps/mirage-rs/src/replay.rs:745-977 | the same, from an injective hash and no request to the zero address |
| Speculative.CreationHidesZeroCall | apps/mirage-rs/src/replay.rs:963-977 | after a creation, the same call to the zero address gets the creation's result |
| Speculative.BaselineIsExactIff | apps/mirage-rs/src/replay.rs:867-932 | a reused baseline is harmless if and only if it still holds every dirty slot |
| Speculative.StrictnessIsIgnored | apps/mirage-rs/src/replay.rs:885-932 | the answer does not depend on the strictness flags |
| SpeculativeReads.FreshIsTheForksIff | apps/mirage-rs/src/replay.rs:885-932 | speculation answers as the fork itself, for every execution, if and only if none of its strictness flags is set |
| Speculative.SurvivorsAreUntouched | apps/mirage-rs/src/replay.rs:806-809 | a result that survives an invalidation for writes has none of them among its recorded reads and writes |
| SpeculativeReads.RunsAreRecorded | apps/mirage-rs/src/replay.rs:745-883 | in every run each cached result is the execution of some request on the view on record for it |
| SpeculativeReads.ExecuteIsFreshIff | apps/mirage-rs/src/replay.rs:745-883 | after any run, an execution that exposes what it truly reads returns what a new executor would if and only if the view it is answered from agrees with the present state on those reads |
| SpeculativeReads.ExecuteIsFreshIfUnchanged | apps/mirage-rs/src/replay.rs:745-883 | for every execution determined by its true reads, that agreement is enough |
| SpeculativeReads.FreshAfterChangeIff | apps/mirage-rs/src/replay.rs:806-883 | after a state change within a context and any invalidations for writes and requests, the next execution, if its result shows all it reads, is fresh if and only if a kept result reads nothing that changed, or, once dropped, no dirty slot read differs from the baseline |
| SpeculativeReads.FreshAfterChangeIfUnseen | apps/mirage-rs/src/replay.rs:806-883 | that condition is enough for every execution determined by what it reads |
| SpeculativeReads.DroppedAndCurrentIsFresh | apps/mirage-rs/src/replay.rs:806-883 | so such an execution is fresh if every dependent result is dropped and the baseline still holds every dirty slot |
| SpeculativeReads.NoInvalidationHelps | apps/mirage-rs/src/replay.rs:806-843 | a request whose result shows what it reads, and which reads a dirty slot rewritten within its context, never gets the fresh answer, whatever writes and requests are invalidated |
| SpeculativeReads.BlockInvalidationRefreshes | apps/mirage-rs/src/replay.rs:812-828 | after an invalidation for its block every next execution is fresh |
| SpeculativeReads.WritesDoNotRefresh | apps/mirage-rs/src/replay.rs:768-787 | a read-only call, whose read is not recorded: neither the invalidation for the write nor one for the request makes it fresh |
| SpeculativeReads.CreationAnswersZeroCall | apps/mirage-rs/src/replay.rs:963-977 | a call to the zero address answered with the price of the creation before it |
| SpeculativeReads.StrictForkDisagrees | apps/mirage-rs/src/replay.rs:885-932 | speculation accepts every transfer that a strict fork refuses for want of balance |
| MultiVersion.MultiVersionStore.ReExecutionCount | apps/mirage-rs/src/replay.rs:939-950 | the loops over slots and versions add up the highest recorded incarnation of each transaction |
| MultiVersion.CountIsUnique | apps/mirage-rs/src/replay.rs:939-950 | the recorded versions determine the count, whatever order the maps iterate in |
| MultiVersion.OrderFreeIffTopsAgree | apps/mirage-rs/src/cow.rs:109-129 | the materialised map is independent of recording order if and only if the top versions of each slot agree |
| MultiVersion.MaterializeIsSequentialIff | apps/mirage-rs/src/cow.rs:118-129 | it is what running the final writes in transaction order gives if and only if every abandoned write still on top shows the value those writes give its slot |
| MultiVersion.MaterializeIsSequential | apps/mirage-rs/src/cow.rs:118-129 | so with stable write sets it always is |
| MultiVersion.AbandonedWriteSurvives | apps/mirage-rs/src/cow.rs:118-129 | without stability a write of an abandoned incarnation is still there |
| MultiVersion.CountIsSumOfLastIncarnations | apps/mirage-rs/src/replay.rs:939-950 | the count is at most the sum of the last incarnations, with equality if and only if every re-executed transaction ends with a write |

## Left out

- The EVM, keccak and the `lru`, `dashmap` and `tokio` libraries are function parameters or simple abstract models.
- HTTP, WebSocket and JSON-RPC handlers, upstream network calls, command lines and configuration parsing.
- The knowledge, pheromone and HDC stores of `chain_rpc.rs` and the HDC precompile state shared between forks.
- Disk persistence and serialisation, resource thresholds, ranking of results, status transition tables and block heuristics: none of them changes the state the theorems are about.
- Wall time and memory use in scenario results.
- Scenarios.RunParallel: no background task panics, so the result that stands in for one that does is left out.
- Scenarios.AcceptedMovesView: the block number moves as long as it is below 64 bits; `World.transact` stands for the EVM, so that it does is a hypothesis here and `BlockIndex.ForkIndexes.FinalizeTransaction` its proof.
- The bytecode cache, `code_by_hash` and the hit and miss counters of the read cache.
- Stack depth of the JSON parser's recursion, and the conversion of a number lexeme to `f64`.
- The relay's event feeds beyond their removal, its workspaces and its message time-outs.
- RateLimit.RateLimiter.CheckMethod: one call is one atomic step here, and its interleavings are the subject of `RateLimitThreads`; the counters behind `stats` and the saturation of the delay at 64 bits are not modelled.
- RateLimit.MethodWindowBound: calls come one at a time, in the order of their clock readings; without that order the bound is false, and `RateLimitThreads.MethodWindow` states what holds then.
- RateLimit.AuthorWindowBound: the same, with `RateLimitThreads.AuthorWindow`.
- RateLimit.ReportedDelaySuffices: over real numbers, so the rounding of `f64` is not covered.
- RateLevels.LetThroughIff: of one uninterrupted call, over real numbers; the next level is stated for readings in clock order.
- JsonErrors.MemberSeparatorIsRefused: for the first member; the errors of arrays and strings are stated after any number of items and pieces.
- HashTable.Run: keys are strings and values integers, and the 64-bit hash is any function.
- Relay.RelayState.BeginMessage: agent cards, workspaces and feed contents are not part of the relay state here; a registration changes only the session.
- Bus.NoLostMessage: a subscription that is removed while the message is under way is not covered, as the code promises nothing for it.
- Bus.NumbersAreUnique: holds until the 64-bit counter wraps.
- Relay.ReachableInv: each begun message has a fresh id and each registration a fresh session, as random ids are taken to be distinct.
- Erc20.RunsAreCoherent: for a token of whose balances upstream knows nothing; raw EVM writes to the token's slots and protocol calls are not among its operations, since the code does not keep the overrides coherent across them.
- HybridDb.ReadsAreRecent: a fetch takes no time, upstream failures are answers of the upstream function, and block hashes, which have no time to live, are only promised to be some past answer. A prefetch of several slots is several prefetches, where the code drops them all if one fails.
- RpcMining.PruningIsCleanIff: without reverts, and as long as no block's little-endian hash is another's canonical one, which first happens beyond four billion blocks.
- BlockIndex.RunsAgreeIff: without blocks mined over RPC, whose second hash never agrees; a revert goes back to any earlier number, snapshot or not; a block number and a transaction hash each determine their record only under an injective hash, and runs are shorter than the 64-bit block counter.
- ContagionWatch.RunsStayRooted: address and selector filters are left out, as the follower that feeds the list has none.
- Scenarios.BaselineModesAgree: assumes that both modes time out after the same transactions, if at all, and that the watch list is never tight; a view leaves out the read cache, which a fixed upstream makes invisible.
- Scenarios.SnapshotModesAgree: one way only over whole sets, because a lost database may still give equal results; the exact condition for one turn is Scenarios.RevertRestoresIff.
- Speculative.ExecuteIsFresh: the time at which a result was computed is not modelled, and code inside a view is compared by value.
- MultiVersion.MultiVersionStore.ReExecutionCount: concurrent recording is taken as some order of atomic records.
