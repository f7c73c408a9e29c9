# Verified model of the agent runtime's core

This project models six parts of the repository and proves properties of
them over every input, every run or every reachable state.

* **Layered copy-on-write vector store** (`src/memory.rs`, `src/shards.rs`).
  A store is a stack of layers over a keyed buffer (tier 1) and an append-only
  list with an index (tier 2). `VectorRecall` models one query with its loops,
  `RecallProperties` what follows from its meaning, `LayerRefinement` lookups in
  one stack of layers against a plain map, `IndexedRecall` what a query gets
  through exact indexes, `Compaction` the compactor running between writes, and
  `LatestVersions` the newest version of an id in layers whose compactions may be
  in the middle. `SharedStores` is a memory of shared layer contents with any
  number of stores and their compaction workers, whose drains and swaps are
  separate events, `StoreRuns` what holds of its runs, and `CompactionRequests`
  when a store asks its worker for work. `LayerCounting` is the reference counter of one layer file. `VectorStore` is the objects themselves,
  handles sharing contents and counters and stores owning handles, and
  `HeapSchedules` shows that any schedule of events on any number of such objects
  is a run of `SharedStores`.
* **Context router** (`src/api/context`): `Context`.
* **Fuel** (`src/economy/registry.rs`, `src/sandbox/host_api`): `Ledger` is the
  signed-transfer ledger as a machine over its separately locked steps, `Fuel`
  the metering of a guest run, where a mesh call holds the whole run of its
  callee.
* **Tunnel framing** (`src/network/tunnel.rs`): `TunnelFraming`. The cipher is
  a parameter assumed only to add a 16-byte tag and to open what it sealed
  (Noise Protocol Framework, sections 3, 4.2 and 5.1), and the handshake one
  whose two ends read each other's messages.
* **Migration** (`src/teleport.rs`, `src/hive/connection.rs`): `Teleport`, with
  every send free to be lost, or acknowledged too late, and `RegistryHandOff`,
  any number of migrations by way of one registry.
* **Sandbox state, guest replies, failure detector**: `AgentHistory`,
  `GuestMemory`, `Vitality`. `Handover` joins `AgentHistory` and `Teleport`: what
  a migration takes from one node's registry and leaves in the other's, while the
  node goes on running agents.

`Words` and `Wrappers` hold machine integers and result types.

Where the code changes state in place the model is a class whose methods are
proved against a function of the old state; the lemmas are then about that
function. What the outside world decides (the clock, hash-map order, whether a
packet arrives, what an approximate index answers, what a guest does) is a
parameter, so each theorem holds for every choice of it.

## What the proofs found

These statements hold of the code only under the condition named. Each comes
with an exact condition, a concrete failing input, or both.

* Forking does not isolate a child from its parent. The parent's compaction
  worker still holds the contents it shares with the child, so a compaction that
  the parent asks for can turn what the child shows from the new version of a
  record to an old one (`ParentFlipsChild`), and even a safe one hides a record
  from the child between drain and swap (`ParentHidesFromChild`). Every store
  still holds its own newest versions, unless a write to another collection revives
  a deleted record (`OwnWritesHeldIff`); it shows exactly them, at a given moment,
  if and only if each id is settled in its layers (`OwnWritesShownIff`),
  which it is when only fresh ids are drained and no compaction is under way
  (`FreshDrainsSettle`). Without compactions of shared contents stores are
  isolated (`UntouchedStoresKeepTheirView`).
* A store's worker holds the contents the store writes to exactly until the
  store's first fork (`WorkerAtActiveUnlessForked`). From then on each collection
  of the active layer is queued at most once, nothing drains it
  (`DetachedStoreIsNeverDrained`), and the cap of 2048 records does not bind
  (`CapDoesNotBind`).
* A tombstone names an id, not an id in a collection, so writing an id in one
  collection revives a deleted record of that id in another
  (`RememberElsewhereIff`, `RevivedThroughAnotherCollection`).
* A query whose minimum score rejects the newest version of an id can return an
  older one (`RecallIsCurrentIff`, `OlderVersionReturned`).
* An index hit carries the score of any stored version of an id, and the record
  of the first: once a second version of an id is compacted, a query near the new
  version gets the old record with the score of the new one
  (`ScoreOfAnotherVersion`; the exact condition is `CompactionKeepsWinnersIff`).
* Compaction appends, and a lookup takes the first match: compacting an id a
  second time brings the older version back (`StaleAfterSecondCompaction`,
  `CompactionKeepsCurrentIff`). In the middle of a compaction a record whose
  write was acknowledged is found by no lookup (`LookupIsLatestIff`,
  `DrainedRecordIsInvisible`).
* A handle copied while writable and dropped while writable keeps its layer
  file for ever (`WritableCopyLeaks`).
* A transfer refused for any reason but a replay burns its nonce for good
  (`BurnedStaysBurned`, `FundedRetryRefused`). Fuel is conserved exactly until a
  64-bit addition wraps, which loses 2^64 each time (`LossIsWrapping`).
* A mesh call is never charged for what its callee used when the reply pointer
  faults, when the callee's start code fails after using fuel, or when the
  answer is lost; a cartridge that cannot be set up, traps for another reason
  than fuel or memory, lacks its export or returns a wrong type costs nothing,
  and one that runs out costs all it was given (`BillCoversTreeIff`,
  `LostBurnExamples`, `CartridgeChargeExact`).
* A metered host call that finds less fuel than its price is served all the same
  (`ListPriceIsPaidIff`). A payment or a fork is answered as done, and its amount
  is gone, even if it was never sent (`DebitsWentOutIff`).
* A reply of 2^31 bytes or more counts as negative, so it passes the size check
  against any announced buffer (`BufferIsRespectedIff`).
* A tunnel payload cut between two frames passes the framing
  (`CutIsRejectedIff`); only the command decoder can then refuse it.
* A migration is safe only while no other one is pending at the target: with a
  stale entry there, the commit and the chunks go to different entries, and a
  retry can be acknowledged to the end while the target revives the old state
  (`StaleEntryDecides`, `RetryLosesNewState`).
* By way of a registry, whose entry is named after the alias alone, an agent is
  lost exactly when its hand-off concludes after another state was pushed last
  under that name (`LostIff`, `AloneIsSafe`); of two agents of one name that move
  at the same time, one may be given up and imported nowhere (`TwoNodesOneState`).
* The agent ends on both nodes exactly when only the acknowledgement of its
  commit is lost (`LostAckDuplicatesIff`).
* A hand-off deregisters every entry that an alias has at its end but moves the
  state that one of them had at its beginning: what was booted besides
  (`TwoBootsTwoStates`) and what calls led to in between (`LateCallIsLost`) is
  lost (`NothingIsLostIff`, `LateRunIsLostIff`).
* A mesh call replaces the manifest an agent was booted with by one that
  permits nothing, so an agent that has served a call cannot be migrated any
  more (`TeleportableIff`).
* A migrated agent is registered at the target under its manifest's name, and
  only if the target takes unpaid runs and the run can be set up
  (`RevivedIff`).
* A peer's answer to an alias lookup leads to a run exactly when it names a
  snapshot that is stored here; otherwise the call fails (`PeerCallRunsIff`).
* `fork` sends the guest's linear memory as the module to run, so the child
  starts, and the fuel given to it is not lost, only if that memory is itself a
  module (`ForkStartsIff`).

## Model

| member | source | states |
|---|---|---|
| VectorRecall.Recall | src/memory.rs:260-337 | for any answers of the indexes the result is a legal top list: distinct ids, each with score and metadata of its newest visible version that passes, best first, at most `limit`, and nothing left out beats anything in it |
| VectorRecall.WinnerIsSound | src/memory.rs:276-322 | what an id is returned by is the first passing version of that id in the newest layer that has one, and no tombstone of that layer or a newer one names the id |
| VectorRecall.WinnerIff | src/memory.rs:264-326 | an id is returned by a version exactly when that version is the first passing one in the newest layer that has one, undeleted there and above |
| VectorRecall.ScanTier1 | src/memory.rs:279-292 | the tier-1 loop, in any order of the map, keeps "exactly the winners so far" |
| VectorRecall.ScanTier2 | src/memory.rs:294-323 | the tier-2 loop does the same, over index hits or over the list |
| VectorRecall.ScanStack | src/memory.rs:264-326 | over all layers, newest first, the candidates gathered are exactly the winners of the whole stack |
| RecallProperties.ResultsAreAdmissible | src/memory.rs:272-335 | every result reaches the minimum score and has id, score and metadata of a version its layer offers, deleted by neither its own nor a newer layer, with no passing version in a newer one |
| RecallProperties.NothingIsMissed | src/memory.rs:288-337 | an id with a visible version that reaches the minimum score is missing only from a full answer that scores as much |
| RecallProperties.ScoresAreDetermined | src/memory.rs:276-337 | two legal answers to one query list the same scores: hash-map order does not show |
| RecallProperties.OverFetch | src/memory.rs:294-337 | cutting a nearest-first candidate list to five times the limit keeps the answer legal for the full list |
| RecallProperties.OverFetchIsEnough | src/memory.rs:294-337 | with an exact index over distinct ids, `limit*5` hits are enough as long as at most `limit*4` tier-2 ids are deleted or shadowed |
| RecallProperties.MoreHitsAreIgnored | src/memory.rs:298-299 | hits of an index beyond `limit*5` change nothing |
| LayerRefinement.SpawnShows | src/memory.rs:122-164 | just after a fork both sides see the versions the parent saw |
| LayerRefinement.CompactionKeepsCurrentIff | src/memory.rs:350-388 | compaction keeps what every lookup by id finds exactly when no tier-1 id has a different version ahead of it in tier 2 |
| LayerRefinement.StaleAfterSecondCompaction | src/memory.rs:371-374 | a concrete store where the second compaction of an id makes the older version current |
| LayerRefinement.CompactionKeepsStackViewIff | src/memory.rs:350-388 | compacting any layer of a stack leaves what the stack shows of an id alone exactly when the id is not stale there, or is hidden or shadowed from above |
| LayerRefinement.RememberElsewhereIff | src/memory.rs:247-257 | writing in one collection leaves another's view alone exactly when no deleted record of that id comes back |
| LayerRefinement.RevivedThroughAnotherCollection | src/memory.rs:247-257 | a concrete store in which a deleted record comes back through a write to another collection |
| LayerRefinement.ResultsAreStored | src/memory.rs:264-335 | every result has the metadata of a record that some layer stores under its id, undeleted there and above, and that record's similarity unless an index gave the score |
| IndexedRecall.WinnerIsOffer | src/memory.rs:260-326 | through exact indexes, in any order of equal scores, an answer is fixed by the stack: the best passing hit of an id in the newest layer that has one, with the record stored first |
| IndexedRecall.RecallIsCurrentIff | src/memory.rs:288-305 | a query gets an id by its current version with that version's own score, or not at all if it rejects it, exactly unless it rejects the current version but not another stored one, or another version of the id scores higher in the tier 2 that holds the current one |
| IndexedRecall.OlderVersionReturned | src/memory.rs:288-291 | a concrete store and query that get the older of two versions |
| IndexedRecall.CompactionKeepsWinnersIff | src/memory.rs:350-388 | with exact indexes before and after, compacting any layer of a stack leaves a query with the same record and score of an id exactly when its tier-1 version is not overtaken by one of tier 2, or a newer layer decided |
| IndexedRecall.CompactionKeepsWinners | src/memory.rs:350-388 | compacting ids that tier 2 has no version of, in any layer, leaves every query with the same record and score of every id |
| IndexedRecall.ScoreOfAnotherVersion | src/memory.rs:298-305 | a concrete compaction after which a query gets the old record with the score of the new one |
| IndexedRecall.ExactIndexesAgree | src/memory.rs:294-323 | over one version of each id an exact index gives a lookup the version that a scan of the list would |
| IndexedRecall.ExactRecallReturnsTheMap | src/memory.rs:260-337 | through exact indexes over one version of each id, a recall that admits every version and has room for all returns the map: each entry once, with its metadata and its similarity, and nothing else |
| LatestVersions.ElsewhereKeepsLatestIff | src/memory.rs:247-257 | a write to another collection leaves the newest undeleted versions of this one alone exactly when no deleted version of that id is left |
| LatestVersions.SettledIff | src/memory.rs:260-326 | a lookup finds the newest undeleted version exactly when, in the newest layer that knows the id, it is the first record found, or all versions are in the compactor's hands and the layers below show the same record |
| Compaction.NothingIsLost | src/memory.rs:247-257 | whatever writes run between drain and swap, each id's last written record is in tier 1, or newest in buffer plus tier 2; every indexed point is its record's vector |
| Compaction.LookupIsLatestIff | src/memory.rs:350-388 | at any moment, also between drain and swap, lookups find the last written records exactly when, for every id outside tier 1, the first tier-2 record is the newest one that left tier 1 |
| Compaction.DrainedRecordIsInvisible | src/memory.rs:353-386 | a concrete run in which an acknowledged record is found by no lookup until the swap |
| Compaction.UninterruptedCompaction | src/memory.rs:350-388 | drain record by record, then swap, is the one-step compaction of the collection |
| StoreRuns.OwnWritesHeldIff | src/memory.rs:122-257 | over every schedule of writes to any collections, deletes, requests, nested forks, drains and swaps, the newest undeleted versions that each store holds are its own plain map at every moment, if and only if no write to another collection revives a deleted record |
| StoreRuns.OwnWritesShownIff | src/memory.rs:122-388 | at every moment of every such schedule, between drain and swap too, a store shows exactly its own writes if and only if every id is settled in its layers |
| StoreRuns.UntouchedStoresKeepTheirView | src/memory.rs:122-201 | copy-on-write isolation: over every run a store's view changes only by its own events or a compaction of contents it shares |
| StoreRuns.ParentFlipsChild | src/memory.rs:173-201 | a concrete run in which a compaction asked for by the parent turns the child's answer from the new version to the old one |
| StoreRuns.ParentHidesFromChild | src/memory.rs:353-386 | a concrete run in which a parent's compaction of a fresh id hides the record from the child until the swap |
| StoreRuns.ForkedWorldReached | src/memory.rs:122-164 | the world that `ParentFlipsChild` starts from is reached from a new store |
| StoreRuns.FreshDrainsSettle | src/memory.rs:350-388 | when only ids without an older version in tier 2 are drained, every id is settled in a store none of whose layers is being compacted |
| StoreRuns.RunThenRecall | src/memory.rs:122-337 | after any run from a new store that revives nothing and drains only fresh ids, a recall through exact indexes, on any store none of whose layers is being compacted, returns exactly that store's plain map, with each record's metadata and similarity |
| StoreRuns.WorkerAtActiveUnlessForked | src/memory.rs:173-201 | in every run from a new store, a store's worker holds the contents the store writes to if and only if the store has not forked |
| StoreRuns.RequestsAreServedInOrder | src/memory.rs:184-200 | over every run a worker takes its store's requests in the order they were made, each once and no other |
| CompactionRequests.FlaggedIff | src/memory.rs:339-348 | over every run, until a store forks, a collection of it is flagged exactly while it waits in the queue, where it stands once, or is being compacted |
| CompactionRequests.WriteAsksIff | src/memory.rs:247-257 | at every moment of every run, until its store forks, a write queues its collection exactly when tier 1 holds at least 2048 records and no compaction of it is pending |
| CompactionRequests.CapIsReached | src/memory.rs:250-253 | a concrete run of writes of different ids: the first 2048 ask for nothing, the next one asks |
| StoreRuns.DetachedStoreIsNeverDrained | src/memory.rs:247-257 | from a fork to the next, the active layer's collections hold just what is written to them, whatever any worker does, and each is queued at most once |
| StoreRuns.CapDoesNotBind | src/memory.rs:250-253 | from a fork to the next, tier 1 holds every id written, however many |
| SharedStores.StepOk | src/memory.rs:122-201 | every event keeps the memory consistent: no store's active contents are in another store, and every worker holds a layer of its own store |
| LayerCounting.FileOutlivesItsHandles | src/shards.rs:59-87 | over every run of clone, freeze and drop the counter is at least the live handles, and the file is removed exactly when none is left and none was dropped writable |
| LayerCounting.WritableCopyLeaks | src/shards.rs:156-167 | a concrete run that leaves the file behind with no handle |
| VectorStore.VectorShards.Drain | src/memory.rs:350-356 | tier 1 is emptied and every record is taken once, in whatever order the map yields |
| VectorStore.VectorShards.SwapTier2 | src/memory.rs:363-387 | tier 2 ends with the drained records, tier 1 writes made since the drain stay, the request is cleared |
| VectorStore.VectorShards.DoCompaction | src/memory.rs:350-388 | the whole compaction is `Compacted` for some drain order, or nothing when tier 1 is empty |
| VectorStore.VfsLayer.Clone | src/shards.rs:59-71 | a copy shares shards and counter, has its own tombstones, and counts one more handle |
| VectorStore.VfsLayer.Freeze | src/memory.rs:123-125 | a layer becomes read-only with the same contents and counter |
| VectorStore.VfsLayer.Drop | src/shards.rs:156-167 | dropping a handle is one step of the counting machine |
| VectorStore.VectorVfs.Remember | src/memory.rs:247-257 | the view changes as on the layer stack; at 2048 records a compaction is queued, once |
| VectorStore.VectorVfs.Forget | src/memory.rs:166-171 | the view changes as on the layer stack, in the active layer only |
| VectorStore.VectorVfs.CompactCollection | src/memory.rs:339-348 | a collection is queued unless it is queued already; the view does not change |
| VectorStore.VectorVfs.Recall | src/memory.rs:260-337 | a query over the heap objects is a legal answer for the stack they hold |
| VectorStore.VectorVfs.SpawnCowChild | src/memory.rs:122-164 | parent and child both hold the frozen stack under a fresh empty layer with fresh contents and counter, share the frozen contents, and every other store's handles stay as they are |
| VectorStore.VectorVfs.TakeRequest | src/memory.rs:184-200 | the worker takes the oldest request and drains that collection of the contents it took hold of when the store was made, if it is there |
| VectorStore.VectorVfs.FinishCompaction | src/memory.rs:363-387 | the other half, whatever was written since: those contents are swapped |
| VectorStore.VectorVfs.Discard | src/shards.rs:156-167 | dropping a store leaves every other handle counted and its layer file in place |
| HeapSchedules.Interleave | src/memory.rs:122-201 | for any schedule of writes, deletes, requests, forks of forks, drains and swaps on any number of heap stores, every action on a store that is there by then happens, and the heap ends as the run of `SharedStores` with those events |
| HeapSchedules.HeldFilesStay | src/shards.rs:59-87 | at every moment of such a schedule the file of every layer that a store holds is there |
| HeapSchedules.LayersAreTheView | src/memory.rs:260-270 | the layers a query on a heap store walks are the store's view in that run |
| Context.EstimateTokens | src/api/context/estimator.rs:5-20 | the loop computes the marked-up sum of the block estimates |
| Context.EstimatesRoundUp | src/api/context/estimator.rs:5-20 | a block is estimated at a quarter of its length, rounded up, and at least one; the mark-up is 15 percent, rounded up |
| Context.LargestFirstEvictsFewest | src/api/context/router.rs:70-108 | largest-first meets the budget whenever any set of evictable blocks would, and evicts no more blocks than any such set |
| Context.FifoEvictsShortestPrefix | src/api/context/router.rs:70-98 | first-in-first-out evicts exactly the shortest prefix of the evictable blocks that meets the budget |
| Context.RankingEvictsHighest | src/api/context/router.rs:70-124 | largest-first and hybrid evict the highest-ranking blocks, later ones first among equals, and no more than needed: with the last one to go the budget is missed |
| Context.EvictFailsIff | src/api/context/router.rs:70-86 | eviction misses the budget exactly when the persistent blocks alone exceed it |
| Context.EvictRemovesEvictable | src/api/context/router.rs:70-86 | for every strategy, what is left is the input without some non-persistent blocks |
| Context.PreparedIsLighter | src/api/context/router.rs:18-60 | hydration and truncation keep the number of blocks, never raise the weight, leave exact lengths, and truncating again changes nothing |
| Context.TruncationFits | src/api/context/router.rs:38-60 | under pressure a tool result over half the window becomes its longest prefix that leaves room for the notice, and the notice, and fits half the window, if the notice does; every other block keeps its content |
| Context.TruncationSpares | src/api/context/router.rs:38-68 | a concrete tool result that is shortened and not evicted |
| Context.OptimizeContract | src/api/context/router.rs:17-92 | error exactly when the truncated persistent blocks exceed the budget; success is within budget, keeps every persistent block in place, and reports the exact drop and count |
| Context.SecondRunSettles | src/api/context/router.rs:17-92 | a second run reports no change after a success and fails the same way after a failure |
| Context.ContextRouter.EvictUntilFits | src/api/context/router.rs:70-86 | the loop ends, leaves the session as the specification does, and counts what it evicted |
| Context.ContextRouter.Optimize | src/api/context/router.rs:17-92 | session and result are those of the specification, so neither subtraction of the report underflows |
| Ledger.LedgerConserves | src/economy/registry.rs:52-99 | with mints between any steps of any transfers, balances plus the amount in flight are the total minted, no 64-bit addition wraps, and every balance replays from mints and log |
| Ledger.LossIsWrapping | src/economy/registry.rs:52-99 | over every run, however much is minted, balances plus the amount in flight fall short of the total minted by 2^64 for each addition that wraps |
| Ledger.ConservedIffNothingWraps | src/economy/registry.rs:52-99 | a run conserves the total minted exactly when no 64-bit addition of it wraps |
| Ledger.AtRest | src/economy/registry.rs:52-99 | with no transfer under way balances sum to the total minted, and each is minted plus received minus sent by the log, self-transfers included |
| Ledger.NoncesLogOnce | src/economy/registry.rs:58-79 | logged nonces are pairwise distinct and used, and only genuine transactions are debited or logged |
| Ledger.BurnedStaysBurned | src/economy/registry.rs:58-87 | a nonce used by a refused transfer never enters the log later |
| Ledger.FundedRetryRefused | src/economy/registry.rs:58-87 | a concrete transfer that is refused for lack of funds and, once funded, refused as a replay |
| Ledger.TransferOutcome | src/economy/registry.rs:58-99 | an uninterrupted transfer succeeds exactly when the log gains it; a refusal moves no money and, unless it was a replay, burns the nonce |
| Ledger.TransferGoesThroughIff | src/economy/registry.rs:58-99 | a transfer is logged exactly when its nonce is unused, it is genuine and its sender has the amount; otherwise the first that fails gives the error; its nonce is used either way |
| Ledger.TransferMoves | src/economy/registry.rs:81-94 | an accepted transfer moves its whole amount between exactly the two accounts |
| Ledger.VoucherRegistry.Mint | src/economy/registry.rs:52-55 | the sum of all balances grows by exactly the amount, or loses 2^64 if that account would wrap; no other account changes |
| Ledger.VoucherRegistry.Transfer | src/economy/registry.rs:58-100 | the method is the four steps in a row, with each refusal under its own condition |
| Fuel.CartridgeChargeExact | src/cartridge.rs:161-359 | the charge is within what was given, and equals what the cartridge used exactly outside the flat-rate endings |
| Fuel.DebitsWentOutIff | src/sandbox/host_api/economy_withdraw.rs:15-46 | over every run the fuel debited is what the guest was told had left, and all of it went out exactly when no payment or fork of some amount was answered as done though its send failed |
| Fuel.ListPriceIsPaidIff | src/sandbox/host_api/memory_ops.rs:68-76 | over every run the metered calls charge their list price exactly when none found less fuel than its price; what a metered call answers does not depend on the fuel |
| Fuel.RunConserves | src/sandbox/sandbox_wasmtime.rs:439-499 | over every run, fuel never rises and fuel plus everything spent stays the same |
| Fuel.ConsumedIsSpent | src/sandbox/sandbox_wasmtime.rs:499 | the unchecked subtraction never underflows and is exactly what the run used, paid, withdrew, forked, was charged and burned |
| Fuel.BurnIsExact | src/sandbox/host_api/inter_agent_invoke.rs:29-75 | a callee gets the lesser of the amount asked for, unsigned, and the caller's fuel; one that ran is charged exactly as used, which its caller still has, if the reply could be written; any other callee, whatever it used, is charged nothing |
| Fuel.CalleeCostsTheLeast | src/sandbox/host_api/inter_agent_invoke.rs:29-75 | a billed callee that burns an amount costs the least of that, the amount asked for and the caller's fuel |
| Fuel.ClampExample | src/sandbox/host_api/inter_agent_invoke.rs:29-30 | a concrete call that asks for 10 and costs 10 although its callee would burn 50 |
| Fuel.MeshCallAnswers | src/sandbox/host_api/inter_agent_invoke.rs:48-61 | a mesh call answers 4 exactly without a reply; otherwise 0 exactly for a callee that succeeded, 3 for any other, unless the reply does not fit or faults |
| Fuel.GuestStopsIff | src/sandbox/sandbox_wasmtime.rs:439-499 | guest code that burns more than there is loses all of it and is stopped |
| Fuel.TransfersAnswer | src/sandbox/host_api/economy_withdraw.rs:15-46 | withdrawals, payments and forks take the amount exactly when they answer 0, and answer 5 exactly when it is not there |
| Fuel.ComponentAnswers | src/sandbox/host_api/cartridge_invoke.rs:44-75 | a component call succeeds exactly when the component returned a string, bare or as its result, and the fuel was there; each other ending has its code |
| Fuel.MeteredCallsAnswer | src/sandbox/host_api/memory_ops.rs:68-76 | what each metered call answers, whatever the meter holds |
| Fuel.PriceListExample | src/sandbox/host_api/memory_ops.rs:68-76 | one metered call of each kind and what it costs |
| Fuel.TreeIsBilled | src/sandbox/host_api/inter_agent_invoke.rs:50-75 | over the whole tree of calls, the caller's charge plus what was left unbilled is what everyone used plus what was billed too much |
| Fuel.BillCoversTreeIff | src/sandbox/host_api/inter_agent_invoke.rs:50-75 | the same for the root's bill; nothing is left unbilled exactly when every callee that used fuel ran to its end with a writable reply and no cartridge that used fuel failed for free, and nothing is billed too much exactly when no cartridge lost fuel it had not used |
| Fuel.LostBurnExamples | src/mesh_worker.rs:78-87 | callees that use 7 units and are billed nothing, because the reply faults or the start code fails after it |
| Fuel.Caller.constructor | src/sandbox/sandbox_wasmtime.rs:439 | a run starts with its allocation, nothing pending and nothing spent |
| Fuel.Caller.InvokeComponent | src/sandbox/host_api/cartridge_invoke.rs:32-80 | reserve, run and refund come to the specified charge and code, and the refund cannot overflow |
| Fuel.Caller.Invoke | src/sandbox/host_api/inter_agent_invoke.rs:24-75 | clamp, call and burn come to the specified state, for callees that ran, were given up or never answered, and including the pending burn a fault leaves |
| Fuel.Caller.Withdraw | src/sandbox/host_api/economy_withdraw.rs:15-46 | debit with rollback comes to all or nothing |
| Fuel.Caller.DeductFuel | src/sandbox/host_api/memory_ops.rs:68-76 | a charge takes its cost or all there is |
| GuestMemory.RespondFrame | src/sandbox/host_api/helpers.rs:45-64 | a fault changes nothing; otherwise only the two named ranges change, and with code 2 only the length word |
| GuestMemory.RespondTellsSize | src/sandbox/host_api/helpers.rs:45-64 | unless it faults, the call leaves the length cast to a signed word there, which is the reply's size exactly below 2^31 bytes |
| GuestMemory.BufferIsRespectedIff | src/sandbox/host_api/helpers.rs:52-60 | a reply that was written is within the announced buffer exactly when it is smaller than 2^31 bytes |
| GuestMemory.AnswerIff | src/sandbox/host_api/helpers.rs:45-64 | for replies below 2^32 bytes and any announced size: code 0 exactly when the signed length is at most that size and both ranges are in memory, code 2 exactly when it is more; a written reply apart from the length word is in place |
| GuestMemory.ReplyIsIntactIff | src/sandbox/host_api/helpers.rs:60-63 | with code 0 the reply is in place exactly when an overlapping length word happens to agree with it |
| GuestMemory.RetrySucceeds | src/sandbox/host_api/helpers.rs:45-64 | after code 2 one more call with a buffer of the reply's size, apart from the word, returns 0 with exactly the reply in it, for replies below 2^32 bytes and no others |
| GuestMemory.DecodeEncode | src/sandbox/host_api/helpers.rs:66-86 | a signed little-endian word reads back as written |
| GuestMemory.ReadI32 | src/sandbox/host_api/helpers.rs:66-75 | reads the word, or refuses out of range |
| GuestMemory.WriteI32 | src/sandbox/host_api/helpers.rs:77-86 | writes the word and nothing else, or refuses and writes nothing |
| GuestMemory.WriteResponse | src/sandbox/host_api/helpers.rs:45-64 | in-place writing leaves the memory and code the specification gives for a reply of any size, with pointers taken as unsigned and the length cast to a signed word |
| TunnelFraming.PayloadRoundTrip | src/network/tunnel.rs:109-178 | encryption succeeds while nonces last; decryption under the same nonce gives the payload back and uses as many nonces |
| TunnelFraming.SessionDelivers | src/network/tunnel.rs:109-178 | from synchronised ends the receiver gets, in order and unchanged, the longest prefix of the commands whose total size is within 1,000,000,000 bytes, and nothing after it |
| TunnelFraming.CutIsRejectedIff | src/network/tunnel.rs:143-164 | a prefix of a payload is rejected exactly when it ends inside a frame; otherwise it gives the whole chunks before the cut |
| TunnelFraming.OpensFrameByFrame | src/network/tunnel.rs:143-174 | whatever bytes arrive in transport mode, frames are opened in order up to the first that does not open, each under the next nonce, and only those nonces are used up |
| TunnelFraming.PayloadVerdict | src/network/tunnel.rs:139-178 | a payload is a Noise error exactly when a whole frame of it does not open in its turn, else an I/O error exactly when bytes are left over, else what its joined frames decode to |
| TunnelFraming.ReadsFrameByFrame | src/network/tunnel.rs:166-174 | the same in the handshake, which a refused message leaves where the refusal put it |
| TunnelFraming.WritesPieceByPiece | src/network/tunnel.rs:121-134 | in the handshake a payload goes out in pieces of 65000 bytes up to the first that the handshake refuses to write |
| TunnelFraming.SendsIffNoncesLast | src/network/tunnel.rs:121-134 | in transport mode encryption succeeds exactly when a nonce below 2^64 - 1 is left for every 65000 bytes |
| TunnelFraming.RekeyIff | src/network/tunnel.rs:109-114 | in every mode a command is counted first, modulo 2^64, and refused for want of a new key exactly when the count is above 1,000,000,000 |
| TunnelFraming.ClosedTunnelRefuses | src/network/tunnel.rs:121-174 | without transport or handshake nothing is sent or read |
| TunnelFraming.FitsReservedCapacity | src/network/tunnel.rs:116-118 | the output is 20 bytes longer for every 65000 bytes or part of them, and never outgrows the reserved capacity |
| TunnelFraming.CiphertextBound | src/network/tunnel.rs:116-131 | every chunk seals to at most 65016 bytes, within the Noise message limit |
| TunnelFraming.CommandRoundTrip | src/network/tunnel.rs:109-178 | one command under the limit arrives as it was and leaves the two ends in step |
| TunnelFraming.HandshakeRoundTrip | src/network/tunnel.rs:121-174 | in the handshake too, whatever could be sent is read back by the paired end, and the two ends stay paired |
| TunnelFraming.NothingAfterRekey | src/network/tunnel.rs:111-114 | past the limit every command is refused |
| TunnelFraming.Tunnel.EncryptCommand | src/network/tunnel.rs:109-137 | the count rises even for refused commands; output and next state are those of the specification, in transport mode, in the handshake and in neither |
| TunnelFraming.Tunnel.EncryptChunks | src/network/tunnel.rs:121-134 | the chunk loop makes each chunk a message, by the transport or the handshake, and frames it |
| TunnelFraming.Tunnel.ToTransport | src/network/tunnel.rs:102-107 | the handshake is given up even when it cannot be turned into a transport |
| TunnelFraming.Tunnel.DecryptPayload | src/network/tunnel.rs:139-178 | the command, or the error of the first bad frame or of decoding, with the state used up so far |
| TunnelFraming.Tunnel.DecryptFrames | src/network/tunnel.rs:143-174 | the offset loop parses frame by frame as the specification does |
| Teleport.Reassembles | src/hive/connection.rs:239-240 | for every payload of up to 2^32 chunks and every order of arrival, sorting and joining gives the original bytes |
| Teleport.ChunkSizes | src/teleport.rs:113-123 | every chunk but the last has 65536 bytes, none is empty, and each is numbered by its index, modulo 2^32 |
| Teleport.PermutedDelivery | src/hive/connection.rs:221-247 | handshake, payload packets in any order, commit: the target imports exactly the exported agent and has nothing pending |
| Teleport.HandshakeReplaces | src/hive/connection.rs:222-229 | a handshake replaces what was pending under its id by an entry without chunks, and nothing else |
| Teleport.SecondCommit | src/hive/connection.rs:235-238 | a commit sent once more is acknowledged and imports nothing a second time |
| Teleport.HandOffIsSafe | src/teleport.rs:96-152 | in every reachable state, whatever sends or imports fail, the agent is registered at the source or imported exactly at the target, at most once and nothing else |
| Teleport.HandsOverIff | src/teleport.rs:96-158 | the source lets go exactly when every packet arrived, was handled and was acknowledged; the target then holds exactly the agent |
| Teleport.LostAckDuplicatesIff | src/teleport.rs:130-152 | over every run, the source has given up and the target holds the agent exactly when all before the commit went through, the commit landed and only its acknowledgement was lost; otherwise both hold it only just before the source's last step |
| Teleport.MigrationOutcome | src/hive/connection.rs:221-275 | whatever was pending and however the map lists it after the insertion, a whole migration ends as the entry that the commit takes decides |
| Teleport.StaleEntryDecides | src/hive/connection.rs:231-238 | a migration delivers its own snapshot exactly when nothing else is pending or the taken entry already holds the same agent |
| Teleport.RetryLosesNewState | src/hive/connection.rs:231-238 | a retry over a stale entry: if that entry is listed first the old snapshot is revived and acknowledged, otherwise the commit takes the new entry with no chunk at all |
| RegistryHandOff.LostIff | src/teleport.rs:72-94 | over every schedule of pushes and notices of any number of migrations, an agent is lost exactly when its hand-off concludes and the last push that landed under its reference before the target pulled was of another state |
| RegistryHandOff.AloneIsSafe | src/teleport.rs:76-83 | an agent whose alias no other migration has, unless with the same state, is never lost |
| RegistryHandOff.TwoNodesOneState | src/hive/connection.rs:321-368 | a concrete run of two migrations of one alias that both conclude and import the same one of two states |
| Teleport.MigrationManager.HandleMigrationPacket | src/hive/connection.rs:215-277 | the pending map, the imports and the acknowledgement after each packet |
| Teleport.MigrationManager.SendCommand | src/hive.rs:253-343 | a send succeeds only if delivered, handled without error and acknowledged |
| Teleport.TeleportRequest.Execute | src/teleport.rs:32-159 | nothing is sent without a known, exported agent that may teleport; otherwise registration, target and receipt are those of the protocol run, or of the hand-off through a registry |
| Teleport.TeleportRequest.StreamDirectly | src/teleport.rs:95-138 | handshake, chunks and commit, stopping at the first failure, are the protocol run, bytes counted exactly |
| Teleport.TeleportRequest.SendChunks | src/teleport.rs:113-128 | the chunk loop sends the numbered 64 KB chunks in order and stops at the first failure |
| AgentHistory.RunKeeps | src/sandbox/sandbox_wasmtime.rs:681-752 | over every run a stored snapshot or memory never changes, and every registry entry names a stored snapshot that is what its run left in memory |
| AgentHistory.FinishedEntries | src/sandbox/sandbox_wasmtime.rs:736-752 | a completed run stands last and alone in the place of its parent; other aliases are untouched |
| AgentHistory.ExecuteOutcome | src/sandbox/sandbox_wasmtime.rs:607-755 | which refusal a request meets, each exactly when; a run that meets none leaves what its module makes of its parent's state and its input, in memory and stored |
| AgentHistory.SnapshotIsOf | src/sandbox/sandbox_wasmtime.rs:757-781 | a snapshot stores what is in memory under the id asked for, and only without that what is under the entry the alias resolves to |
| AgentHistory.CallSwapsEntry | src/mesh_worker.rs:16-59 | a mesh call that runs swaps the entry it resolved, if any, for one of its own; one that fails changes nothing |
| AgentHistory.PeerCallRunsIff | src/mesh.rs:126-147 | a call on an alias that is not registered here runs exactly when a peer's answer names a snapshot stored here and the run can be set up, and then registers it; an export needs the answer to name a memory of this node |
| AgentHistory.ForkStartsIff | src/sandbox/host_api/fork.rs:32-60 | a forked child starts exactly when its parent's linear memory is itself a module that can be set up |
| AgentHistory.EntriesAreStarts | src/mesh_worker.rs:16-59 | reached by boots and calls only, an alias has as many entries as completed runs started it |
| AgentHistory.LinearHistory | src/mesh_worker.rs:16-59 | started once and driven by calls, an alias always has one entry, naming the state its completed runs lead to one after the other |
| AgentHistory.TetMesh.Register | src/mesh.rs:98-106 | replaces the first entry of the same id, or appends |
| AgentHistory.TetMesh.Deregister | src/mesh.rs:150-152 | nothing resolves the alias any more, at any clock, and every other alias resolves as before |
| AgentHistory.TetMesh.RemoveBySnapshot | src/mesh.rs:155-163 | drops the entries of that snapshot, and the alias with the last of them |
| AgentHistory.WasmtimeSandbox.ExecuteInner | src/sandbox/sandbox_wasmtime.rs:262-576 | a run that cannot be set up registers nothing |
| AgentHistory.WasmtimeSandbox.Execute | src/sandbox/sandbox_wasmtime.rs:607-755 | store, active agents and registry after a run, in the order the code updates them |
| AgentHistory.WasmtimeSandbox.HandleCall | src/mesh_worker.rs:16-59 | a call runs the snapshot of the entry resolved here or by a peer under the same alias, one level deeper and without a manifest |
| AgentHistory.WasmtimeSandbox.TakeSnapshot | src/sandbox/sandbox_wasmtime.rs:757-781 | stores the active state found by id, else by alias, here or by a peer's answer |
| AgentHistory.WasmtimeSandbox.ImportSnapshot | src/sandbox/sandbox_wasmtime.rs:808-815 | stores the payload under a new id |
| Handover.PreparedIs | src/teleport.rs:36-63 | whatever runs between the questions, a migration takes the state of one entry and the manifest of another, each picked by the clock among those registered at that moment |
| Handover.NothingIsLostIff | src/teleport.rs:95-152 | with any operations of the node between the sends, every state the alias has when it is deregistered is imported by the target exactly when the hand-off does not complete, or each of them is the state that was sent or one the target had |
| Handover.LettingGoForgets | src/teleport.rs:152 | the last step leaves the source no entry of the alias and every other alias as it was |
| Handover.NoticeDropsIff | src/teleport.rs:72-94 | by way of a registry, the states that the alias has when the notice is answered are all with the target exactly when each is the state it pulled or one it had |
| Handover.LateRunIsLostIff | src/teleport.rs:45-152 | for an agent booted once and driven by calls, its state at the end is lost exactly when the hand-off completes, the runs since the snapshot led elsewhere, and the target had not got that state |
| Handover.LateCallIsLost | src/teleport.rs:45-152 | a concrete hand-off during which a call is answered whose state is then on no node's registry |
| Handover.TwoBootsTwoStates | src/sandbox/sandbox_wasmtime.rs:736-752 | a concrete alias with two entries of different states |
| Handover.TeleportableIff | src/sandbox/sandbox_wasmtime.rs:702-728 | an agent booted once and driven by calls may migrate exactly when its manifest permits and no call to it has run when the manifest is read; what would travel is the state its completed runs had led to when the snapshot was taken |
| Handover.RevivedIff | src/hive/connection.rs:242-270 | an alias gains an entry at the target exactly when the target takes unpaid runs, the run can be set up and the manifest's name is that alias |
| Vitality.RunTracks | src/network/vitality.rs:31-68 | after any run a node's stored time is its last heartbeat's, and its status is dead, suspect or active as the scans since came 15 s, 5 s or less after it |
| Vitality.ReportedIff | src/network/vitality.rs:31-68 | a scan reports a node exactly when it is the first at least 15 s after the node's last heartbeat, whatever the clock did |
| Vitality.ReportedOnce | src/network/vitality.rs:31-68 | between two reports of a node there is a heartbeat of it |
| Vitality.StatusOnlyWorsens | src/network/vitality.rs:45-68 | without a heartbeat a status never improves |
| Vitality.VitalityManager.RecordHeartbeat | src/network/vitality.rs:31-35 | after any history of heartbeats and scans, the stored nodes are those of the run with this heartbeat added, which is then the node's last one |
| Vitality.VitalityManager.CalculateUnresponsive | src/network/vitality.rs:45-68 | the loop visits every node once, leaves the nodes of the run with this scan added, and lists exactly the nodes that the scan reports, each once |

## Left out

- VectorStore.VectorVfs.Remember: the 32 hash shards of a layer are one map, because a collection always lives in one of them.
- VectorStore.VectorVfs.SpawnCowChild: the file written in the background and the placeholder copy of the active layer are not modelled; the copy and drop of each handle are grouped by layer.
- HeapSchedules.Interleave: says nothing of a store copied with the derived `Clone`, which shares its active layer, of layers restored from disk, which have no counter and no shards, of the one compaction done at once when a store has no worker, or of stores dropped in the middle of a schedule, for which see `Discard`.
- Compaction.NothingIsLost: has no tombstones, because compaction does not look at them.
- RecallProperties.OverFetchIsEnough: speaks of a store of one layer, because the limit on index hits applies to each layer by itself.
- CompactionRequests.WriteAsksIff: speaks of stores that have not forked; after a fork a flag of the active layer is never taken back, see `DetachedStoreIsNeverDrained`.
- StoreRuns.RunThenRecall: asks for exact indexes and for a minimum score that admits every version, because otherwise the statement is false, see `RecallIsCurrentIff`.
- Scores are real numbers and cosine similarity is a parameter: NaN scores are not modelled.
- Context.ContextRouter.Optimize: the mark-up `ceil(n*1.15)` and half the window are exact integers, contents are bytes, and the hybrid score is a parameter in real numbers.
- Fuel: guest code is any decrease of fuel; 64-bit fuel inside the engine is taken as exact, and a call made from inside a callee is allowed although the one mesh worker could not serve it.
- Fuel.Caller.Fetch: the egress policy, the quota and the cache decide its outcomes and are parameters.
- TunnelFraming.Tunnel.ToTransport: the key exchange is not part of this model; what the handshake turns into is a parameter.
- TunnelFraming.SessionDelivers: asks that fewer than 2^64 bytes be offered in all, because the counter wraps there.
- Teleport.TeleportRequest.Execute: the route publication, the wallet it loads and the encryption of each send are not modelled; what a registry returns is a parameter here and a state in `RegistryHandOff`.
- RegistryHandOff.LostIff: follows the state that was pushed; runs that end while the hand-off is under way are in `Handover.NoticeDropsIff`.
- Teleport.HandOffIsSafe: ends with the import; the run that the target starts afterwards is `Handover.RevivedIff`.
- AgentHistory.WasmtimeSandbox.HandleCall: a call is one step, as the worker awaits it; forks run beside it are not interleaved, and the call's payload is absent from the run's input, as in the code, which builds that file but never passes it on.
- AgentHistory: a guest run that traps is a completed run, whose state becomes the alias's next one; identifiers are drawn from a counter, standing for fresh random ones; `fork` with its own parent is `Execute`.
- Vitality.VitalityManager.CalculateUnresponsive: the configured `timeout_limit_us` is absent, as the code does not use it.
- Serialization, signatures and compression are parameters with their inverse laws.
- The HTTP API, the bridge, quorum, market, quota and key store are not modelled: they are I/O or single branches.
