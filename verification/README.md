# Wallet backend: transaction tracking, verified

A Dafny model of the backend's transaction-tracking machinery and proofs of what it
guarantees over whole runs. `dafny verify dfyconfig.toml` checks all of it.

Code that changes state in place is modelled as classes and methods with loops, each
proved against a function on values; the guarantees over runs are lemmas about those
functions. Calls to the node, the price service, the database engine and the clock are
parameters, so every statement holds for all their answers.

| file | component |
|---|---|
| `Text.dfy` | case folding, decimal and hex codecs, machine integers, orderings |
| `PendingRegistry.dfy`, `PendingRuns.dfy` | the registry of broadcast transactions: in-memory tracker, SQLite-backed store, hydration after a crash |
| `SendProtocol.dfy`, `SendRuns.dfy`, `FeeBump.dfy` | SendTx, replacements, the janitor, nonces, and repeated fee bumps |
| `WatcherLegs.dfy`, `WatcherTick.dfy`, `WatcherRuns.dfy` | the poll loop: grouping, classification, spam, dedup, deferral, block cursor |
| `WatcherOrder.dfy`, `WatcherOnce.dfy` | Go's random map order, and why a transaction is notified once |
| `FanOut.dfy` | subscribers and bounded queues |
| `HistoryTable.dfy`, `HistorySync.dfy`, `HistoryGuard.dfy` | the cached history table, the concurrent sync, and when it may start |
| `SwapMerge.dfy`, `HistoryPaging.dfy` | the swap-leg merge and cursor pagination |
| `PriceKey.dfy`, `PriceFeed.dfy` | the canonical cache key, the TTL cache and the token-price feed |
| `RevertReason.dfy`, `EnvFile.dfy` | two parsers that invert their printers |

## Where the code and its documentation differ

The model follows the code.

- `internal/usecase/history/merge_swaps.go:28-29` promises chronological order. A raw leg
  can move ahead of a newer row (`SwapMerge.MergeCanBreakOrder`); the exact condition is
  `SwapMerge.MergeKeepsOrderIff`.
- `internal/usecase/history/usecase.go:88-92` and `:229-232` promise that syncs never
  overlap. Routine syncs neither raise nor read the flag; `HistoryGuard.SingleFlightIff`
  says exactly when the promise holds, `HistoryGuard.ForceOverlapsRoutine` shows it broken.
- `internal/domain/transaction/storage/sqlite/storage.go:108-114` promises that the count
  matches the visible list. It does exactly when every hash has one leg or a pair that
  merges (`SwapMerge.MergeCounts`).
- `internal/usecase/watcher/watch_transactions.go:23-24` says approvals surface as events,
  and `internal/usecase/watcher/classify.go:33-36` that sending to oneself is a
  self-transfer. Neither is reached (`WatcherLegs.ApproveIsNeverSeen`,
  `WatcherLegs.SelfSendIsASend`).
- `internal/adapter/eth/pending_store.go:97-99` accepts a risk of nonce overflow. The two
  casts lose nothing (`PendingRegistry.DecodeEncode`).
- `internal/usecase/watcher/watch_transactions.go:54` writes the queried window as open at
  `prev - lookback + 1`. The code includes that block (`WatcherRuns.LookbackReach`).

## Conventions

- A Go string is a sequence of bytes; each character of a `string` stands for one byte.
  Case folding is ASCII. An address is its 20 bytes: comparing two of them is comparing
  their lower-case hex. The hash behind an address's checksum casing is not part of this
  model: any casing is allowed.
- An instant is a count of nanoseconds, 0 being Go's zero time. One tick of the watcher
  and one pass of the janitor read the clock once. The registry's operations take each of
  their readings separately.
- Ranging over a Go map is a nondeterministic order.
- Every inductive proof is written out: lemmas switch automatic induction off.
- Amounts are unbounded integers as in `big.Int`; `uint64` and `int64` wrap.

## Model

| member | source | states |
|---|---|---|
| `PendingRuns.SameMeaning` | pkg/ethkit/pending.go:91-154 | After any calls with sweeps at any times, the tracker and the store list the same transactions and show the same recent ones, and both are what the ledger that never collects says: still active, or effectively removed at most five minutes ago. |
| `PendingRuns.TrackerTracks` | pkg/ethkit/pending.go:91-118 | Every run of Add and Remove keeps the tracker in step with that ledger, collection inside Remove included. |
| `PendingRuns.StoreTracks` | internal/adapter/eth/pending_store.go:83-131 | Every run of Add, Remove and the periodic sweep keeps the store's memory in step with the same ledger. |
| `PendingRuns.CollectsExactlyTheStale` | pkg/ethkit/pending.go:104-118 | What is collected: the tracker's Remove, the store's sweep and a restart drop the entries and rows stamped more than five minutes ago, those and no others, and never a pending one. |
| `PendingRuns.RowsWritten` | internal/adapter/eth/pending_store.go:89-131 | An addition leaves an unstamped row that decodes to the transaction; a removal stamps the row of its hash, active or not, at its second reading, and no other row changes. |
| `PendingRuns.CrashRecovery` | internal/adapter/eth/pending_store.go:171-254 | A crash after any run, restarts included, followed by hydration rebuilds exactly the live active map with every field; what the live Recent would show is still shown; and Recent is the same from then on if and only if every row whose stamp is still recent carries the stamp memory has. It does when each removal reads the clock once and none hits a hash with a row that is not active; the sweep may read it twice. |
| `PendingRuns.RecentRecoveredIff` | internal/adapter/eth/pending_store.go:118-127 | The same equivalence for any store whose table mirrors its memory. |
| `PendingRuns.RunMirrors` | internal/adapter/eth/pending_store.go:83-131 | Every run keeps the table a mirror of memory: same active hashes, rows that decode to the entries, stamps never earlier than memory's. |
| `PendingRuns.MirrorAdd` | internal/adapter/eth/pending_store.go:83-110 | Writing through an addition keeps the mirror. |
| `PendingRuns.MirrorRemove` | internal/adapter/eth/pending_store.go:116-131 | Writing through a removal keeps the mirror, and keeps the recent stamps alike unless it reads the clock twice or re-stamps the row of a hash that is not active. |
| `PendingRuns.MirrorGc` | internal/adapter/eth/pending_store.go:258-278 | Sweeping table and memory, at two readings of the clock, keeps the mirror and the recent stamps alike. |
| `PendingRuns.MirrorRestart` | internal/adapter/eth/pending_store.go:171-254 | Hydrating from a mirror gives the same active map and shows no less. |
| `PendingRuns.RemovedTwice` | internal/adapter/eth/pending_store.go:116-131 | Removing a hash twice leaves memory with the first stamp and the row with the second. |
| `PendingRuns.SecondRemoveOutlivesMemory` | internal/adapter/eth/pending_store.go:118-127 | A concrete run with a second removal after which the recovered Recent shows a transaction the live one has dropped. |
| `PendingRegistry.PendingTracker.constructor` | pkg/ethkit/pending.go:83-88 | A new tracker is empty. |
| `PendingRegistry.PendingTracker.Add` | pkg/ethkit/pending.go:91-98 | Add lists the transaction and enters it unstamped in recent. |
| `PendingRegistry.PendingTracker.Remove` | pkg/ethkit/pending.go:104-118 | Remove unlists, stamps only an active hash, and drops every entry past the five minutes. |
| `PendingRegistry.PendingTracker.List` | pkg/ethkit/pending.go:144-154 | List enumerates the active transactions once each. |
| `PendingRegistry.PendingTracker.Recent` | pkg/ethkit/pending.go:123-139 | Recent enumerates the entries that are unstamped or at most five minutes old. |
| `PendingRegistry.PendingStore.constructor` | internal/adapter/eth/pending_store.go:44-57 | Opening the store purges old rows and loads the rest. |
| `PendingRegistry.ScanRows` | internal/adapter/eth/pending_store.go:194-242 | Scanning rows in any order builds the two maps; rows whose addresses do not parse are skipped. |
| `PendingRegistry.PendingStore.Add` | internal/adapter/eth/pending_store.go:83-110 | Add updates memory and replaces the row, unstamped. |
| `PendingRegistry.PendingStore.Remove` | internal/adapter/eth/pending_store.go:116-131 | Remove stamps memory only for an active hash but stamps any row of the hash. |
| `PendingRegistry.PendingStore.Gc` | internal/adapter/eth/pending_store.go:258-278 | The sweep deletes the expired rows and the expired entries. |
| `PendingRegistry.PendingStore.List` | internal/adapter/eth/pending_store.go:136-145 | List enumerates the active transactions once each. |
| `PendingRegistry.PendingStore.Recent` | internal/adapter/eth/pending_store.go:150-166 | Recent enumerates the visible entries of memory. |
| `PendingRegistry.DecodeEncode` | internal/adapter/eth/pending_store.go:89-106 | Every transaction survives the row: checksummed addresses, decimal amounts and the uint64 nonce stored as int64, for all values; the overflow the comment accepts loses nothing. |
| `PendingRegistry.EncodeSays` | internal/adapter/eth/pending_store.go:89-106 | What the columns of a written row mean: sender and recipient in their own columns, amounts in decimal, nonces from 2^63 on as negative numbers. |
| `PendingRegistry.DecodeSays` | internal/adapter/eth/pending_store.go:207-234 | A row is read exactly when both addresses parse, as what its columns say; an amount that is no number counts as zero. |
| `PendingRegistry.HydrateShows` | internal/adapter/eth/pending_store.go:171-242 | Which rows hydration shows, and as what: those whose addresses parse and whose stamp is not older than five minutes; active exactly without a stamp. |
| `Text.ParsePrintInt` | internal/adapter/eth/pending_store.go:282-289 | Printing an integer in decimal and parsing it gives it back. |
| `Text.DecimalDigits` | internal/adapter/eth/pending_store.go:97-103 | The decimal text of a number is positional: its k-th digit from the right counts the 10^k, with no needless leading zero. |
| `Text.ParseIntAccepts` | internal/adapter/eth/pending_store.go:282-289 | Parsing accepts an optional sign and at least one digit, and nothing else. |
| `Text.Uint64ThroughInt64` | internal/adapter/eth/pending_store.go:97-100 | A uint64 cast to int64 and back is unchanged. |
| `Text.AddressRoundTrip` | pkg/ethkit/address.go:21-27 | An address printed with any letter casing parses back. |
| `Text.NewAddressAccepts` | pkg/ethkit/address.go:21-27 | Exactly 40 hex digits are an address, with 0x, 0X or no prefix in front. |
| `SendProtocol.NonceManager.Next` | pkg/ethkit/tx.go:22-41 | The nonce handed out is the counter of the address or, without one, the node's pending nonce; the counter then stands right after it, modulo 2^64; with neither, nothing changes. |
| `SendProtocol.NonceManager.Reset` | pkg/ethkit/tx.go:43-47 | Reset forgets the address. |
| `SendProtocol.SendTx` | pkg/ethkit/tx.go:50-118 | Result, counter and registry for every outcome of the calls it makes: the counter is consumed first and reset only when the broadcast fails; the registry is touched only after acceptance, and the entry is always retired. |
| `SendProtocol.SendWithNonce` | pkg/ethkit/tx.go:56-118 | The same from the moment the nonce is held. |
| `SendProtocol.SendEnds` | pkg/ethkit/tx.go:50-118 | Which answers lead to which result, and the counter left behind: right after the nonce taken, forgotten exactly when the broadcast fails; without acceptance the registry is untouched. |
| `SendProtocol.SendLeavesEntry` | pkg/ethkit/tx.go:56-117 | The entry of a sent transaction, field by field: the sender's nonce, the recipient and value asked for, the fees asked for or else the suggested tip and twice the base fee plus that tip; retired and still recent. |
| `SendProtocol.ReplaceTx` | pkg/ethkit/replacement.go:55-151 | What is sent: the same nonce at a tip a fifth and a cap a tenth higher, rounded down; a cancel pays 0 to the wallet without data at 21000 gas, a speed-up keeps recipient, value, data and gas. The registry loses a vanished original, gains exactly the accepted replacement as sent, and is otherwise unchanged. |
| `SendProtocol.PruneStalePending` | pkg/ethkit/pending.go:224-266 | One janitor pass leaves the registry with exactly the removals its eviction decisions call for, with one remembered nonce per sender. |
| `SendProtocol.PrunedIs` | pkg/ethkit/pending.go:224-266 | A pass takes exactly the stale hashes off the list, and Recent shows the same set as before at that instant. |
| `SendProtocol.JanitorKeepsLive` | pkg/ethkit/pending.go:248-265 | An entry survives if and only if the node reports it pending and its nonce is at least the confirmed nonce first learned for its sender. |
| `SendProtocol.StaleHashesExactly` | pkg/ethkit/pending.go:248-265 | The hashes evicted by a prefix of the pass are those of its stale entries and no other. |
| `SendProtocol.KnownIsFirst` | pkg/ethkit/pending.go:232-246 | The nonce the pass works with is the first one the node gave for that sender. |
| `SendRuns.ListedIsExplained` | pkg/ethkit/tx.go:99-117 | In every interleaving of sends, replacements and evictions, each listed hash belongs to a SendTx still waiting for its receipt or to a replacement. |
| `SendRuns.RunKeepsNonces` | pkg/ethkit/tx.go:22-47 | In every interleaving, the nonces an address handed out since its last reset are consecutive modulo 2^64, one per call. |
| `SendRuns.FirstNonceIsTheNodes` | pkg/ethkit/tx.go:28-38 | In every interleaving, the first nonce of an address since its last reset is the one the node reported to the very call that took it, at a moment when the address had no counter. |
| `SendRuns.TakeHandsOut` | pkg/ethkit/tx.go:22-41 | One call to the counter: what it hands out and what it leaves behind. |
| `SendRuns.MissingNonceHasOwner` | pkg/ethkit/tx.go:50-97 | A nonce handed out since the last reset was taken by exactly one SendTx, and has not been broadcast since that reset if and only if that call has not broadcast it. |
| `SendRuns.GapExactlyWhenOneGaveUp` | pkg/ethkit/tx.go:51-97 | With no call between taking its nonce and broadcasting, all nonces handed out since the last reset have been broadcast if and only if none of those calls gave up. |
| `SendRuns.GivenUpNonceStaysMissing` | pkg/ethkit/tx.go:51-92 | A nonce whose call gave up is handed to no other call and broadcast by none until the next reset. |
| `SendRuns.SendAlone` | pkg/ethkit/tx.go:50-118 | An undisturbed SendTx is the step Take followed by its steps: the method and the interleaving machine do the same. |
| `SendRuns.ReplaceAlone` | pkg/ethkit/replacement.go:55-151 | A replacement is one step of the machine. |
| `SendRuns.PruneAlone` | pkg/ethkit/pending.go:224-266 | A janitor pass is a run of eviction steps. |
| `SendRuns.CounterFollows` | pkg/ethkit/tx.go:22-47 | The counter exists exactly when a nonce was taken since the last reset and stands right after the last one. |
| `FeeBump.BumpRaises` | pkg/ethkit/replacement.go:83-90 | One bump strictly raises the tip if and only if it is at least 5, the cap if and only if it is at least 10. |
| `FeeBump.GrowthBelow` | pkg/ethkit/replacement.go:83-90 | k bumps: 10^k(cap_k - 9) >= 11^k(cap - 9) and 5^k(tip_k - 4) >= 6^k(tip - 4). |
| `FeeBump.GrowthAbove` | pkg/ethkit/replacement.go:83-90 | k bumps never exceed 1.1^k and 1.2^k. |
| `FeeBump.ValidThrough` | pkg/ethkit/replacement.go:83-90 | Tip stays at most cap (EIP-1559, section "Specification") through k bumps whenever 12^k tip <= 11^k (cap - 9). |
| `FeeBump.TipOvertakes` | pkg/ethkit/replacement.go:83-90 | From tip 5 on, 11 * cap bumps always end with the tip above the cap. |
| `FeeBump.ReplaceableForever` | pkg/ethkit/replacement.go:83-90 | Fees stay valid through every number of bumps if and only if tip <= cap and tip <= 4. |
| `FeeBump.ReplacementIsValid` | pkg/ethkit/replacement.go:83-90 | One bump keeps tip at most cap if and only if 12 tip - (2 tip mod 10) <= 11 cap. |
| `FeeBump.FirstReplacement` | pkg/ethkit/gas.go:69-71 | With default fees the first replacement is valid if and only if tip - (2 tip mod 10) <= 22 base fees; so up to 22 base fees always, and from ten above never. |
| `WatcherLegs.GroupByHash` | internal/usecase/watcher/fetch_transfers.go:53-66 | The loop with its seen set builds exactly the groups of the deduplicated transfers. |
| `WatcherLegs.DedupKeepsOnePerId` | internal/usecase/watcher/fetch_transfers.go:57-61 | Exactly one fetched transfer survives per UniqueID. |
| `WatcherLegs.DedupIs` | internal/usecase/watcher/fetch_transfers.go:57-61 | What survives of each UniqueID is its first fetched transfer. |
| `WatcherLegs.GroupsPartition` | internal/usecase/watcher/fetch_transfers.go:49-66 | Groups are non-empty, each leg is under its own hash, and together they are the deduplicated transfers as a multiset. |
| `WatcherLegs.ClassifyRole` | internal/usecase/watcher/classify.go:12-66 | The loops and early exit compute the role from directions, counterparties and the first leg. |
| `WatcherLegs.BuildTransactionEvent` | internal/usecase/watcher/build_event.go:12-59 | The event carries one movement per leg in order, the largest block, the latest time (now when none), and the isOurs mark. |
| `WatcherLegs.EventIs` | internal/usecase/watcher/build_event.go:12-59 | Block and time of the event are the latest of any leg, the time is now only when no leg has one, and leg i gives movement i. |
| `WatcherLegs.MovementIs` | internal/usecase/watcher/build_event.go:65-89 | A leg from the wallet is outgoing to its recipient, any other incoming from its sender, with the leg's amount and contract. |
| `WatcherLegs.TokenNamesAre` | internal/usecase/watcher/build_event.go:96-156 | A token shows its own symbol and name; a missing one comes from the catalogue, else from the chain, else stays empty. |
| `WatcherLegs.RoleShape` | internal/usecase/watcher/classify.go:12-66 | Each role stated on the legs, both ways: a swap has a leg leaving the wallet for another address and a leg not starting at the wallet, and so on for every role. |
| `WatcherLegs.NativeByFirstLeg` | internal/usecase/watcher/classify.go:52-70 | A plain send or receipt is one of ETH or of a token by its first leg: native, or a token that shows the symbol ETH in any casing. |
| `WatcherLegs.SelfSendIsASend` | internal/usecase/watcher/build_event.go:73-77 | A lone leg from the wallet to itself is never a self-transfer: it counts as outgoing only. |
| `WatcherLegs.ApproveIsNeverSeen` | internal/usecase/watcher/classify.go:13-15 | No group the watcher classifies gets the role Approve. |
| `WatcherLegs.SwapIsStable` | internal/usecase/watcher/classify.go:31-50 | Once the visible legs classify as Swap, any larger set of legs in any order, with any metadata, still does. |
| `WatcherLegs.IndexPendingByHash` | internal/usecase/watcher/fetch_transfers.go:73-80 | The index maps each lower-case hash to its last entry. |
| `WatcherLegs.KindOfLast` | internal/usecase/watcher/fetch_transfers.go:73-80 | A hash has the kind of the last pending entry with that hash in any casing. |
| `WatcherLegs.SpamIs` | internal/usecase/watcher/spam.go:33-49 | An event is spam exactly when the hash is nobody's pending one, a catalogue is wired, and some leg moves a token missing from it. |
| `WatcherTick.EmittedSet.constructor` | internal/usecase/watcher/watch_transactions.go:219-225 | A new set is empty with the given bound. |
| `WatcherTick.EmittedSet.Has` | internal/usecase/watcher/watch_transactions.go:227-231 | Membership in the map is membership in the order slice. |
| `WatcherTick.EmittedSet.Add` | internal/usecase/watcher/watch_transactions.go:233-246 | Adding a new hash evicts the oldest at the bound; map and slice always hold the same distinct hashes. |
| `WatcherTick.Watcher.constructor` | internal/usecase/watcher/watch_transactions.go:65-69 | The loop starts uninitialised at block 0 with nothing emitted or deferred. |
| `WatcherTick.Watcher.ShouldDefer` | internal/usecase/watcher/watch_transactions.go:174-207 | Holds a swap-tagged event that is neither Swap nor SelfTransfer until maxDeferral after its first sighting, recording the first sighting; what this means for a hash is `LeavesUnlessHeldBack`. |
| `WatcherTick.Watcher.VisitHash` | internal/usecase/watcher/watch_transactions.go:142-166 | One group is skipped, dropped as spam, deferred or emitted, with the exact new dedup set and deferral map. |
| `WatcherTick.Watcher.ProcessTick` | internal/usecase/watcher/watch_transactions.go:126-167 | The loop over the grouped hashes equals the fold of the visits in some order of the groups, each visited once. |
| `WatcherTick.Watcher.SweepStale` | internal/usecase/watcher/watch_transactions.go:107-114 | Drops exactly the deferrals older than twice maxDeferral. |
| `WatcherTick.Watcher.Tick` | internal/usecase/watcher/watch_transactions.go:77-116 | One turn of the ticker: cursor, dedup set, deferrals, notes and queried window for every combination of failures. |
| `WatcherTick.SightIs` | internal/usecase/watcher/watch_transactions.go:126-166 | What a tick knows of a hash, read off the poll: seen when a first-of-its-id transfer has it, ours when a pending entry has it in any casing, with the kind of the last such entry, spam as above. |
| `WatcherRuns.AtMostOnce` | internal/usecase/watcher/watch_transactions.go:142-166 | In any run, two notes (event or spam drop) of one hash are separated by cap distinct other hashes entering the dedup set. |
| `WatcherRuns.RunDeduped` | internal/usecase/watcher/watch_transactions.go:213-246 | In any run the dedup set is the last cap hashes that left, without repetition, and disjoint from the deferral map. |
| `WatcherRuns.DeferralIsHonoured` | internal/usecase/watcher/watch_transactions.go:174-207 | An event for a hash tagged "swap" has role Swap or SelfTransfer, or was first put aside at least maxDeferral earlier. |
| `WatcherRuns.DeferralHasOrigin` | internal/usecase/watcher/watch_transactions.go:188-193 | Every deferral on record goes back to the completed turn that first put the hash aside, and kept that time since. |
| `WatcherRuns.EmittedMeans` | internal/usecase/watcher/watch_transactions.go:156-163 | An emitted event is the one built from what that turn fetched, is not spam and is not held. |
| `WatcherRuns.LeavesUnlessHeldBack` | internal/usecase/watcher/watch_transactions.go:142-207 | In any run, a hash seen that is not in the dedup set leaves on that very turn, if and only if it is not a swap-tagged one that is not spam, of a role other than Swap and SelfTransfer, first seen less than maxDeferral ago or only now; exactly then it stays on record under its first sighting. |
| `WatcherRuns.DeferralsAreSwept` | internal/usecase/watcher/watch_transactions.go:107-114 | A completed turn drops the deferrals older than twice maxDeferral, those and no other that it does not see. |
| `WatcherRuns.IdleTurn` | internal/usecase/watcher/watch_transactions.go:77-98 | A turn with a failed poll, no new block or a failed fetch notes nothing and changes neither the dedup set nor the deferrals. |
| `WatcherRuns.SettlesInTime` | internal/usecase/watcher/watch_transactions.go:107-114 | A hash fetched by every completed turn leaves within maxDeferral + d of its first sighting when completed turns are at most d apart. |
| `WatcherRuns.StaysAside` | internal/usecase/watcher/watch_transactions.go:107-114 | Until it leaves, the first sighting of such a hash stays on record: the sweep at twice the limit never resets it. |
| `WatcherRuns.CursorNeverMovesBack` | internal/usecase/watcher/watch_transactions.go:77-116 | The cursor never decreases and never becomes uninitialised. |
| `WatcherRuns.CursorMoves` | internal/usecase/watcher/watch_transactions.go:77-116 | The cursor is placed at the head by the first poll that answers and by each fetch that succeeds past it, and stays otherwise. |
| `WatcherRuns.NoEarlierHistory` | internal/usecase/watcher/watch_transactions.go:81-88 | No block more than two before the head of the first poll is ever queried. |
| `WatcherRuns.NoBlockSkipped` | internal/usecase/watcher/watch_transactions.go:77-116 | Every block after the initial head up to the cursor lies in the window of a successful fetch, whatever polls and fetches failed. |
| `WatcherRuns.LookbackReach` | internal/usecase/watcher/watch_transactions.go:90-93 | A successful turn queries a block behind the cursor again if and only if the cursor is at most two past it. |
| `WatcherOrder.OrderIrrelevant` | internal/usecase/watcher/watch_transactions.go:142-166 | For any reachable dedup set: all orders of ranging over the groups emit the same multiset of notes and end with the same dedup set and deferrals if and only if no more hashes leave than the set holds and none of those they push out is fetched in the same tick. |
| `WatcherOrder.ReachedIsSettled` | internal/usecase/watcher/watch_transactions.go:213-246 | Every reachable dedup set meets the assumption of that theorem. |
| `WatcherOrder.UndisturbedAgree` | internal/usecase/watcher/watch_transactions.go:142-166 | The direction from the condition: any two orders agree. |
| `WatcherOrder.Disagree` | internal/usecase/watcher/watch_transactions.go:142-166 | The other direction: whenever the condition fails, two orders that differ. |
| `WatcherOrder.EvictionSeesTheOrder` | internal/usecase/watcher/watch_transactions.go:233-246 | A fetched hash that the leaving ones push out: visited before them it does nothing, visited after them it leaves or is put aside again. |
| `WatcherOrder.TooManyLeave` | internal/usecase/watcher/watch_transactions.go:233-246 | When more hashes leave than the set holds, the one that leaves last stays in it and the one that leaves first does not. |
| `WatcherOnce.NeverNotedTwice` | internal/usecase/watcher/watch_transactions.go:44-48 | Over any run in which a fetch brings at most p hashes of blocks in the queried window, each always of the same block, no hash is notified or dropped twice once the set holds 4 p. |
| `WatcherOnce.SeenAgainSoon` | internal/usecase/watcher/watch_transactions.go:88-93 | Between two ticks that fetch the same hash, at most 3 p notes are written: the first tick and two moves of the cursor. |
| `WatcherOnce.PushedOutIsOld` | internal/usecase/watcher/watch_transactions.go:44-48 | In such a run no tick pushes out of the set a hash that it fetches. |
| `WatcherOnce.OrderNeverShows` | internal/usecase/watcher/watch_transactions.go:142-166 | So in such a run no tick depends on the order of the map. |
| `WatcherOnce.ProductionNotifiesOnce` | internal/usecase/watcher/watch_transactions.go:27-48 | Both for the values of the code, a set of 512 and two pages of 50, over the polls themselves. |
| `FanOut.SafeDelivery` | internal/usecase/watcher/usecase.go:131-154 | In every interleaving no send or close meets a closed channel, registered channels are distinct and exactly the open ones, and each subscriber receives each event at most once and each emitter's events in order. |
| `FanOut.LossOnlyWhenFull` | internal/usecase/watcher/emit.go:11-22 | When no emitter is mid-walk, a subscriber has received or still has queued every event emitted since it joined, except those that met a full queue of 64. |
| `FanOut.RunKeeps` | internal/usecase/watcher/emit.go:11-22 | Every step of emitters, subscribers and readers keeps the invariant behind both. |
| `FanOut.Broadcaster.AddSubscriber` | internal/usecase/watcher/usecase.go:131-137 | Subscribing appends an open, empty channel. |
| `FanOut.Broadcaster.Unsub` | internal/usecase/watcher/usecase.go:139-151 | Unsubscribing removes that channel from the subscribers, and no other, and closes it once; again it does nothing. |
| `FanOut.Broadcaster.Emit` | internal/usecase/watcher/emit.go:11-22 | For each channel: a subscriber finds the event once at the end of its queue, or lost when 64 wait already; every other channel is unchanged. |
| `FanOut.EmitAlone` | internal/usecase/watcher/emit.go:11-22 | An undisturbed emit of the method is the lock and sends of the machine. |
| `HistoryTable.Storage.Upsert` | internal/domain/transaction/storage/sqlite/storage.go:27-50 | A known UniqueID changes only cached_at; a new one is inserted. |
| `HistoryTable.Storage.UpdateGasFees` | internal/domain/transaction/storage/sqlite/storage.go:54-64 | All rows of the hash, and only they, get the fee. |
| `HistorySync.NormalizeAssetIsCanonical` | internal/usecase/history/usecase.go:34-49 | The symbol kept is ASCII upper-case letters and digits and normalising again changes nothing. |
| `HistorySync.NormalizeAssetIs` | internal/usecase/history/usecase.go:34-49 | Letter by letter: digits and capitals stay, small letters become capitals, everything else goes. |
| `HistorySync.StoreTransfer` | internal/usecase/history/usecase.go:331-339 | A transfer is skipped as spam or upserted as its entity; what the row then says, field by field, is `SyncRecordsTransfers`. |
| `HistorySync.EnrichGasFee` | internal/usecase/history/usecase.go:368-385 | A receipt writes its fee on every row of the hash; none writes nothing. |
| `HistorySync.SyncFromAlchemy` | internal/usecase/history/usecase.go:254-364 | Whichever direction goes on next, whichever lookup ends next and whatever fails, the sync ends in a table described by Reached, reports an error exactly when a fetch failed, and without failures ends in the one described by Synced. |
| `HistorySync.TurnOf` | internal/usecase/history/usecase.go:310-358 | One turn of a direction: store, skip after a failed write, or end after a failed fetch. |
| `HistorySync.LookupEnds` | internal/usecase/history/usecase.go:368-385 | One gas lookup ends, with a fee or without. |
| `HistorySync.EverySyncIsSound` | internal/usecase/history/usecase.go:254-385 | Every interleaving with any failures, once at rest: rows not stored are as before but for fees, rows stored carry the data of their transfer, fees are the receipt's or still missing where a lookup failed, and each non-spam transfer was stored or dropped by a failure. |
| `HistorySync.RetryRepairs` | internal/domain/transaction/storage/sqlite/storage.go:33-39 | A complete sync after one with failures leaves the table a complete sync in its place would have left, up to the ids of new rows. |
| `HistorySync.EveryInterleavingSyncs` | internal/usecase/history/usecase.go:254-364 | Every interleaving that completes ends with one row per earlier row and per distinct non-spam UniqueID, its data and gas fixed. |
| `HistorySync.SyncRecordsTransfers` | internal/usecase/history/usecase.go:400-422 | After a complete sync, each fetched transfer that is new and not of an unverified token has a row with its own sender, recipient, value, hash, category, block, time and normalised symbol, cached now, with the fee of its receipt; and no other row was added. |
| `HistorySync.SyncKeepsOldRows` | internal/domain/transaction/storage/sqlite/storage.go:33-39 | A row that was there keeps every field but its stamp, when it was fetched again, and its fee, when a transaction of its hash was fetched and has a receipt. |
| `HistorySync.SyncedIsUnique` | internal/usecase/history/usecase.go:254-364 | Two complete runs over the same chain end in the same table up to the ids of new rows. |
| `HistorySync.SyncedRowsHaveGas` | internal/usecase/history/usecase.go:368-385 | After a complete run every non-spam transfer has its row, and every row of its hash, old or new, carries the fee of the receipt if there is one. |
| `HistorySync.SecondSyncOnlyRestamps` | internal/domain/transaction/storage/sqlite/storage.go:33-39 | Of two complete runs in a row the second changes only cached_at, and only on rows it fetched. |
| `HistorySync.StoredInTheEnd` | internal/usecase/history/usecase.go:326-356 | What is stored, what failures dropped and what is still to store add up to the same at every point of every run. |
| `HistoryGuard.Guard.Admit` | internal/usecase/history/usecase.go:149-155 | A routine sync starts exactly when more than the cooldown has passed at the first reading of the clock, and then stamps the second. |
| `HistoryGuard.Guard.BeginForce` | internal/usecase/history/usecase.go:233-244 | A forced sync starts unless a forced one is running, ignores the cooldown and re-arms it. |
| `HistoryGuard.Guard.EndForce` | internal/usecase/history/usecase.go:246-250 | The flag is lowered when the forced sync ends. |
| `HistoryGuard.SyncsAreSpaced` | internal/usecase/history/usecase.go:211-252 | Over any calls a routine sync starts more than the cooldown after every earlier sync, and at most one forced sync runs. |
| `HistoryGuard.StartsExactlyWhen` | internal/usecase/history/usecase.go:149-252 | Over any calls, without the lock: a routine call starts a sync if and only if it comes more than 30 seconds after the newest stamp, a forced one if and only if no forced sync is in flight. |
| `HistoryGuard.StartsBesideAnother` | internal/usecase/history/usecase.go:211-244 | A call puts a second sync in flight if and only if it is a routine one past the cooldown, or a forced one with the flag down, while a sync is running. |
| `HistoryGuard.SingleFlightIff` | internal/usecase/history/usecase.go:88-92 | Over any calls at most one sync is ever in flight if and only if no call is of that kind. |
| `HistoryGuard.RoutineOverlapsOnlySlow` | internal/usecase/history/usecase.go:88-92 | A routine sync only ever overlaps syncs that have been running for longer than the cooldown. |
| `HistoryGuard.ForceOverlapsRoutine` | internal/usecase/history/usecase.go:229-252 | A forced sync can start at any time after a routine one that has not ended. |
| `SwapMerge.TryMergeSwap` | internal/usecase/history/merge_swaps.go:77-124 | The loop assigns the two legs and merges them; which groups merge is `MergesExactlyWhen`, into what is `MergedCarriesBoth`. |
| `SwapMerge.MergesExactlyWhen` | internal/usecase/history/merge_swaps.go:77-104 | A group merges if and only if it has two rows with different assets, and the first leaves the wallet and the second enters it, or the first only enters it and the second leaves it. |
| `SwapMerge.MergeShowsSwap` | internal/usecase/history/merge_swaps.go:30-71 | A hash with two such rows is shown as one row carrying what left and what entered at the earlier time; every other hash is shown as it is. |
| `SwapMerge.MergeSwapLegs` | internal/usecase/history/merge_swaps.go:30-71 | Grouping and emitting in first-seen order gives the merge. |
| `SwapMerge.GroupRows` | internal/usecase/history/merge_swaps.go:46-57 | The index map and slice end with the rows of each hash, in order, hashes in first-seen order. |
| `SwapMerge.MergeIgnoresLegOrder` | internal/usecase/history/merge_swaps.go:83-98 | The decision depends on leg order if and only if one leg is wallet-to-wallet, the other leaves the wallet and the assets differ; without wallet-to-wallet legs the merged row is the same. |
| `SwapMerge.MergedCarriesBoth` | internal/usecase/history/merge_swaps.go:108-123 | A merged row carries the asset and value of both legs, the rest of the received leg and the earlier time. |
| `SwapMerge.MergeConserves` | internal/usecase/history/merge_swaps.go:30-71 | Each input row ends up in exactly one output row, raw or as one half of one swap. |
| `SwapMerge.MergeIdempotent` | internal/usecase/history/merge_swaps.go:30-71 | Merging a merged list changes nothing. |
| `SwapMerge.MergeAdd` | internal/usecase/history/merge_swaps.go:30-71 | Lists that share no hash merge independently. |
| `SwapMerge.MergeShowsGroup` | internal/usecase/history/merge_swaps.go:59-68 | What the merged list shows for a hash is what its own legs show. |
| `SwapMerge.MergeOfPart` | internal/usecase/history/merge_swaps.go:24-26 | A hash whose legs lie in one part of a list is shown alike by the part and by the whole. |
| `SwapMerge.MergeCounts` | internal/domain/transaction/storage/sqlite/storage.go:108-127 | Distinct hashes <= rows shown <= rows; the displayed count of distinct hashes equals the rows shown if and only if each hash has one leg or a pair that merges. |
| `SwapMerge.MergeKeepsOrderIff` | internal/usecase/history/merge_swaps.go:28-29 | A newest-first list stays newest-first if and only if no row is older than the newest time shown for a hash first seen after its own. |
| `SwapMerge.MergeKeepsOrder` | internal/usecase/history/merge_swaps.go:28-29 | In particular when the legs of each hash share one time. |
| `SwapMerge.MergeCanBreakOrder` | internal/usecase/history/merge_swaps.go:28-29 | Otherwise the promised order can break, for any three such rows. |
| `HistoryPaging.ListingIsDetermined` | internal/domain/transaction/storage/sqlite/storage.go:81-89 | The ORDER BY leaves one possible listing. |
| `HistoryPaging.ListingIs` | internal/domain/transaction/storage/sqlite/storage.go:81-106 | The listing has the rows the address sent or received, each once, newest first, those of one time by UniqueID. |
| `HistoryPaging.ListingExists` | internal/domain/transaction/storage/sqlite/storage.go:81-89 | Every table has such a listing. |
| `HistoryPaging.CursorRoundTrip` | internal/usecase/history/usecase.go:137-143 | A cursor that prints a positive 64-bit number leads to that offset; any other number leads to the top. |
| `HistoryPaging.BadCursorStartsOver` | internal/usecase/history/usecase.go:137-143 | An empty cursor, or one with a character that is no digit, starts from the top. |
| `HistoryPaging.OnePage` | internal/usecase/history/usecase.go:132-206 | One answer for any limit and cursor: which rows, what is shown, when more is announced and under which cursor, and the number of distinct hashes as the total. |
| `HistoryPaging.WalkHistory` | internal/usecase/history/usecase.go:132-206 | Asking again with each NextCursor from the empty cursor ends: full pages, one short last page, and together each row of the table that the wallet sent or received, and no other, exactly once, newest first; each page gives the number of their hashes as total; when no page boundary cuts a hash, the pages together show the merge of the whole history. |
| `HistoryPaging.WalkFrom` | internal/usecase/history/usecase.go:190-205 | From any cursor a page hands out, the pages that follow are those from that offset on. |
| `HistoryPaging.PagesCover` | internal/usecase/history/usecase.go:172-205 | The raw rows of the pages put together are the listing. |
| `HistoryPaging.PagesFull` | internal/usecase/history/usecase.go:175-195 | Every page but the last announces more and is full; the last is short. |
| `HistoryPaging.PageShowsWholeHash` | internal/usecase/history/usecase.go:183-183 | A hash whose rows lie in one page is shown there exactly as in the merge of the whole history. |
| `HistoryPaging.CleanCut` | internal/usecase/history/merge_swaps.go:24-26 | A page boundary that cuts no hash is invisible in what is shown. |
| `HistoryPaging.PagesShow` | internal/usecase/history/usecase.go:183-205 | What the pages from an offset on show, put together, is what the rest of the listing shows, when no boundary cuts a hash. |
| `PriceKey.SortInPlace` | internal/adapter/price/adapter.go:446-450 | The insertion sort leaves the distinct strings strictly sorted, same elements. |
| `PriceKey.SortedUniq` | internal/adapter/price/adapter.go:434-453 | The result is the one strictly sorted list of the lower-case elements. |
| `PriceKey.CanonicalIs` | internal/adapter/price/adapter.go:434-453 | A strictly sorted list is determined by its elements. |
| `PriceKey.KeyOf` | internal/adapter/price/adapter.go:303-303 | The key computed is the key of the set of addresses. |
| `PriceKey.KeysAgree` | internal/adapter/price/adapter.go:303-303 | Non-empty lists of comma-free addresses share a key if and only if their lower-case sets are equal. |
| `PriceKey.KeysAgreeUpToCase` | internal/adapter/price/adapter.go:303-303 | The same entry by entry: they share a key if and only if each address of one list is in the other, in any casing. |
| `PriceKey.CommaCollides` | internal/adapter/price/adapter.go:303-303 | With commas inside entries two different sets can share a key. |
| `PriceFeed.TtlCache.Get` | pkg/cache/cache.go:31-42 | Answers an entry up to and including its expiry, nothing after. |
| `PriceFeed.TtlCache.GetStale` | pkg/cache/cache.go:47-58 | Answers any entry. |
| `PriceFeed.TtlCache.Set` | pkg/cache/cache.go:61-69 | Replaces the entry and restarts its time. |
| `PriceFeed.TtlCache.Delete` | pkg/cache/cache.go:72-77 | Removes the key only. |
| `PriceFeed.TtlCache.Purge` | pkg/cache/cache.go:80-90 | Removes exactly the expired entries, so no later Get answers differently. |
| `PriceFeed.Feed.GetTokenPrices` | internal/adapter/price/adapter.go:298-320 | Refines the history of upstream attempts: serve the latest success while fresh, else fetch, else the stale success, else nothing. |
| `PriceFeed.AnswerIsForTheseAddresses` | internal/adapter/price/adapter.go:298-320 | Every answer is empty or the newest successful reply for exactly the addresses asked; older than the TTL only when this call's fetch failed. |
| `PriceFeed.FetchesAreSpaced` | internal/adapter/price/adapter.go:298-320 | Over any calls, after a success the same addresses are not fetched again within the TTL. |
| `RevertReason.BytesToHexString` | pkg/ethkit/simulate_alchemy.go:150-159 | Prints two lower-case digits per byte. |
| `RevertReason.DecodeRevert` | pkg/ethkit/simulate.go:165-209 | The index loop and its exits compute Decode, wrapped 64-bit arithmetic and signs in the length word included. |
| `RevertReason.RoundTrip` | pkg/ethkit/simulate.go:177-209 | Encoding any text as Error(string) (Contract ABI Specification, "Formal Specification of the Encoding") with any zero padding, printing and decoding it returns the text. |
| `RevertReason.DecodeAnyCase` | pkg/ethkit/simulate.go:177-209 | The same however the digits after the selector are cased. |
| `RevertReason.PanicsExactlyWhen` | pkg/ethkit/simulate.go:189-200 | The decoder panics exactly for these values of the length word. |
| `RevertReason.UnknownLayout` | pkg/ethkit/simulate.go:177-187 | A payload of another selector is shown as it is up to twelve characters, a longer one as its first twelve and an ellipsis; a truncated one gives nothing. |
| `RevertReason.KnownLayout` | pkg/ethkit/simulate.go:188-209 | With a length word that says n, with or without a plus sign: nothing when the payload ends early or some pair is no byte, otherwise exactly the n characters the pairs spell. |
| `RevertReason.NegativeLength` | pkg/ethkit/simulate.go:188-200 | A length word with a minus sign makes the decoder panic. |
| `RevertReason.BadLengthWord` | pkg/ethkit/simulate.go:188-192 | A length word that is no hex number gives nothing. |
| `RevertReason.HexNumberOfWord` | pkg/ethkit/simulate.go:185-189 | The big-endian word of a number, printed in hex, reads back as the number. |
| `EnvFile.SplitLines` | pkg/config/config.go:135-155 | The accumulating loop splits at newlines, drops carriage returns and keeps a last line only if not empty. |
| `EnvFile.TrimSpace` | pkg/config/config.go:179-192 | The two index loops cut exactly the blank edges. |
| `EnvFile.TrimIs` | pkg/config/config.go:179-192 | Any cut with blank outside and no blank edge inside is the trim. |
| `EnvFile.ParseEnvLine` | pkg/config/config.go:157-177 | The loop stops at the first "=", trims both sides, strips one pair of matching quotes and refuses an empty key. |
| `EnvFile.Environ.Setenv` | pkg/config/config.go:127-129 | A key that is empty or holds "=" or NUL, or a value with NUL, is not set. |
| `EnvFile.Environ.ParseEnvFile` | pkg/config/config.go:116-133 | The environment after loading is the fold of the file's pairs. |
| `EnvFile.PrintThenParse` | pkg/config/config.go:116-177 | A printed file reads back as its pairs: bare values that trimming and unquoting leave alone, quoted values holding anything but a line end, blanks around key and value, either line ending, and comments or lines without a key anywhere. |
| `EnvFile.LastLineCounts` | pkg/config/config.go:150-155 | The same for a last line without a line ending. |
| `EnvFile.FileSets` | pkg/config/config.go:113-133 | What such a file without NUL bytes does to one variable: its value stays, or it gets the first non-empty value in the file, if there is one. |
| `EnvFile.FirstValueWins` | pkg/config/config.go:113-133 | For every variable: a non-empty existing value wins, otherwise the first non-empty settable value in the file. |

## Left out

- Failed writes: the registry's SQL statements succeed. The history sync's fetches, writes
  and receipt lookups may fail, but a receipt that is found says the same throughout.
- Registry concurrency: the store's SQL writes happen outside its mutex; operations on one
  hash are taken one after the other. Wallet reset, which empties the table but not the
  snapshot, is not part of this model.
- PendingForAddress and RecentPendingForAddress: filters by sender over List and Recent.
- fetchTransfers: its two calls are one parameter of a tick; it reads one page per
  direction, so coverage is about the block ranges queried.
- Token metadata: lookups are a table that does not change during one tick.
- Notifications: the sink, the ids it returns and the wire format of events.
- FanOut: one emit is a lock, one send per subscriber and an unlock; contexts, goroutine
  scheduling and the semaphore's bound are not modelled.
- Sync errors: which error is reported; that a failed direction cancels the others is one
  of the interleavings.
- WatcherOnce.ProductionNotifiesOnce: assumes that the node answers with at most the page
  size asked for, only with transfers of the window asked for, and that no transaction
  moves to another block.
- Amount formatting: fees and transfer values are text from outside.
- Times in the database: stored and read as instants, not in SQLite's text format.
- HistoryPaging.WalkHistory: assumes a listing of at most 2^63 - 1 rows and a table that does not change.
- PriceKey.KeysAgree: assumes addresses without commas; `PriceKey.CommaCollides` shows why.
- RevertReason.DecodeRevert: a capacity whose end wraps around 64 bits is beyond any allocation and
  counts as a panic.
- The rest of the price feed (symbol prices, sparklines, HTTP), swaps and ABI packing, ENS,
  keys and signing, the gRPC handlers and the user interface.
- Gas alerts, low-balance alerts, contacts, the token list and settings: only easy members.
