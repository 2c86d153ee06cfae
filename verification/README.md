# Verification of the explorer indexer and the payment client's local state

The explorer indexer of this repository copies the logs of a few contracts into relational tables, tick by tick,
while its ticks may fail after any statement and the chain may reorganise between ticks. This project models the
indexer down to its single statements and proves what its tables mean; it does the same for the policy read of the
explorer API, the share-value arithmetic, the payment client's replay cache and audit log, and the USDC grant of the
smoke-test genesis.

## How the model is laid out

| file | contents |
|---|---|
| `Ledger.dfy` | chain, blocks, logs, ideal block hash, watched logs of a range |
| `Tables.dfy` | one keyed map for all tables; the effect of every statement on it; rollback |
| `EventFold.dfy` | the reference: a plain fold of the canonical logs, first row per key wins |
| `TickPlan.dfy` | reorg root, block range and the ordered list of writes of a tick |
| `PlanFacts.dfy`, `TickCopies.dfy`, `TickContract.dfy` | what any first part of that list does to the tables |
| `Database.dfy`, `Rpc.dfy`, `Indexer.dfy`, `PlanRuns.dfy` | the imperative indexer: a connection whose calls may fail before or after taking effect, a node that may fail, the loops of a tick, the poll loop; proved to follow the list, and to fail only if a call does or the list itself cannot be carried out |
| `Sync.dfy` | the index refines the chain, over histories of completed, failed and reorging ticks |
| `Anchoring.dfy`, `Reorg.dfy`, `Heartbeat.dfy`, `Progress.dfy` | invariants of every history, rollbacks and their cost, snapshot rhythm, exact progress |
| `Shared.dfy` | several indexers over the same tables |
| `ChainRows.dfy`, `ChainState.dfy`, `ChainUpdates.dfy` | what the tables and the API say about each log, block, transaction, vault and proposal of the chain, column by column |
| `TickFailure.dfy`, `SnapshotRule.dfy` | exactly when a tick fails although every call is answered; exactly which snapshots it takes |
| `Poison.dfy` | what the indexer can never get past |
| `Witness.dfy` | a concrete history for each way the index can go wrong or stall |
| `CrashReplay.dfy`, `StableChain.dfy`, `Tally.dfy` | re-indexing, growing chains with crashes, vote counters |
| `PolicyRead.dfy`, `ShareValue.dfy` | reads of the explorer API |
| `ReplayCache.dfy`, `LockStep.dfy` | cache key, cache file, and any number of processes under its locks |
| `AuditLog.dfy` | append and rotate |
| `Genesis.dfy` | storage words as text, the grant, the account collection |
| `Division.dfy` | facts about integer division |

A block hash is ideal: it is the whole prefix of the chain. One tick sees one chain; between ticks the chain is
arbitrary unless a theorem says that it grows. A tick that fails anywhere is a tick cut after some number of writes,
and every theorem about histories covers every such cut. `Healthy` (in `Sync.dfy`) is the exact condition under which a
tick keeps the index in agreement with a chain (`Sync.TickIff`). For a tick that completes it is a guard on the tables
before the call (`Sync.Sane`): if the tick rolls back, the old cursor is within reach of the reorg root, the safe head
and the configured end; if it does not, the rows left above the cursor are those of its own chain. For an interrupted
tick it depends on where it stopped: it committed no rollback, or it got as far as storing the header at the old cursor
and the rows of all logs up to there. `StableChain.StableHistory` shows that on a chain that only grows every tick is
healthy.

## Where the code and its documentation differ

The model follows the code; each point below is visible in a theorem.

- Re-indexing a range is documented as a no-op. It is one if and only if no status change or execution was handled
  before the row it changes was created and none after (`CrashReplay.ReindexIff`), with a concrete exception
  (`CrashReplay.ReindexChangesStatus`).
- The cursor is the highest level any error-free run recorded, so it does not go down with a rollback. A rollback that
  does not get back to the old cursor within its tick loses the heights in between: no later tick indexes them until one
  rolls back below the old cursor, and a completed rollback to or below the level reached before repairs the whole index
  (`Reorg.ShortRollbackLoses`, `Reorg.BrokenRollbackLoses`, `Reorg.DeepRollbackRepairs`,
  `Reorg.DeepRollbackRepairsBroken`; a history of three ticks in `Witness.LostHeight`).
- A chain that ends below the cursor is not compared with the index at all; such a tick detects nothing, whatever
  the blocks are, and leaves tables and cursor as they are (`Sync.DetectionComplete`, `Sync.ShortChainIdle`,
  `Witness.ShortChainUnseen`).
- Rollbacks keep vault rows, proposal status and vote counters; a counter exceeds the live votes by exactly the votes
  that rollbacks deleted since its row was created (`Tally.HistoryTally`, `Witness.CounterOvershoots`).
- A rollback that would delete a proposal and keep one of its votes violates the foreign key and is refused on every
  later tick while the chain only grows (`Reorg.BlockableIff`, `Reorg.BlockedForever`, `Witness.RefusedRollback`). It
  takes a row left by an interrupted tick: over a healthy history of a chain whose votes follow their proposals no
  rollback is refused (`Reorg.NeverStuck`).
- A tick whose calls are all answered still fails if and only if its rollback is refused, or its range has a log that
  does not decode, a vote that has no row and whose proposal neither has one nor is created before it, or a vault due for
  a snapshot without a state on the chain (`TickFailure.AnsweredTickFailsIff`). As long as the chains stay that way it
  fails for good: the cursor stays below the log's block (`Poison.NeverPastUndecoded`, `Poison.NeverPastUnbackedVote`),
  or where it is, if an active vault without a snapshot has no contract on the chain, as after a reorg that orphans its
  registration (`Poison.NeverPastStatelessVault`). Each case occurs: `Witness.GarbledStalls`,
  `Witness.UnbackedVoteStalls`, `Witness.OrphanedVaultStalls`.
- The comment on genesis step 3 says the harness overlay wins for balance and nonce; the ingested entry is kept
  (`Genesis.HarnessGetsDefault`). The total-supply slot is 11, not 1 as one comment says; the theorems hold for any slot.
- The replay cache loses every entry, or stops parsing, if a process dies inside a write (`LockStep.TornCrashIff`,
  `LockStep.TornWriteLoses`). And it does not keep two deposits with the same inputs from both submitting if the second
  looks its id up before the first has stored it (`LockStep.BothSubmitIff`, `LockStep.SubmittedTwice`).

## Model

| member | source | states |
|---|---|---|
| Ledger.BlockHashDecidesPrefix | services/explorer-indexer/src/indexer.rs:174-188 | one hash comparison at a height decides whether two chains agree on every block up to it |
| Ledger.EveryWatchedLog | services/explorer-indexer/src/indexer.rs:219-232 | no log with a known topic from the gateway, the vault, governance or, in multi-vault mode, the registry is missed, at any position of any block of the range |
| Ledger.LogsArePlaces | services/explorer-indexer/src/indexer.rs:219-223 | the fetched logs are exactly the subscribed positions of the range, each once, in increasing order |
| Indexer.WalkBackToMatch | services/explorer-indexer/src/indexer.rs:352-385 | the countdown returns the root function's value: the highest matching stored height, or -1 |
| TickPlan.RootMaximal | services/explorer-indexer/src/indexer.rs:352-385 | no stored height between the returned root and the start of the walk matches the chain |
| Indexer.CheckReorg | services/explorer-indexer/src/indexer.rs:170-188 | the tables and level after the reorg check, whether or not it rolls back; a refused rollback changes nothing |
| Indexer.IngestBlock | services/explorer-indexer/src/indexer.rs:241-267 | header then transactions of one block; cut only where a call fails |
| Indexer.GroupLogs | services/explorer-indexer/src/indexer.rs:224-232 | the grouped heights and pairs are exactly the blocks with watched logs and those touching the vault |
| Indexer.IngestCursor | services/explorer-indexer/src/indexer.rs:269-287 | the last block's header is stored even without events |
| Indexer.HandleLog | services/explorer-indexer/src/indexer.rs:387-672 | the dispatch has exactly the table effect of its log; it fails only if the log cannot be handled or a call fails |
| Tables.SaturatesOnce | services/explorer-indexer/src/indexer.rs:424-429 | the saturating fold of the shares per leg is the exact sum, capped at the largest word |
| Tables.SumAdds | services/explorer-indexer/src/indexer.rs:424-429 | that exact sum is zero on nothing, the word on one word, and additive |
| Indexer.Heartbeat | services/explorer-indexer/src/indexer.rs:303-341 | a snapshot for the configured and every active vault whose newest snapshot is 7200 blocks old, decided on the tables before the first of them; cut only where a call fails or a vault state cannot be read |
| Indexer.RunInner | services/explorer-indexer/src/indexer.rs:166-350 | success means the whole write plan took effect, failure means some first part of it did; if every call is answered it fails only if the rollback is refused or the plan has a failing write |
| Indexer.RunOnce | services/explorer-indexer/src/indexer.rs:108-164 | whatever fails, the store moves by one tick of the history model, and the report says which; if every call is answered there is a report, and it is a failure exactly if the tick cannot complete on these tables and this chain |
| Indexer.Poll | services/explorer-indexer/src/main.rs:130-158 | the loop produces a chain of ticks with their reports and goes on exactly until a report reaches the configured end |
| Database.Connection.Insert | services/explorer-indexer/src/db.rs:151-175 | insert-if-absent with the number of affected rows |
| Database.Connection.DeleteAboveBlock | services/explorer-indexer/src/db.rs:191-221 | the ten-table loop equals the rollback and counts the deleted rows; it fails with nothing changed if a kept vote needs a deleted proposal, and otherwise only if a call fails |
| Database.VotesClearedFirst | services/explorer-indexer/src/db.rs:196-207 | because votes come before proposals in the table list, only a vote that stays can block the rollback |
| Database.Connection.InsertVote | services/explorer-indexer/src/db.rs:526-583 | vote and counter move together or not at all; it fails only for a new vote on an unknown proposal or if a call fails |
| Database.Connection.ExecuteProposal | services/explorer-indexer/src/db.rs:585-604 | only an existing, unexecuted proposal is marked executed; the affected count is 1 exactly then |
| Database.Connection.UpdateVaultStatus | services/explorer-indexer/src/db.rs:462-486 | only a registered vault takes the new status; the affected count is 1 exactly then |
| Database.Connection.LastIndexedBlock | services/explorer-indexer/src/db.rs:677-687 | the loop returns the highest level any error-free run of the chain recorded |
| Sync.CursorIsMax | services/explorer-indexer/src/db.rs:677-687 | the cursor bounds every level an error-free run recorded, and is one of them unless there is none |
| Sync.RunRecorded | services/explorer-indexer/src/indexer.rs:108-164 | a completed tick adds one error-free run that starts one above the old cursor and records the tick's level |
| Database.Connection.FinishRun | services/explorer-indexer/src/db.rs:652-675 | closes one run record and leaves the others |
| PlanFacts.TickWritesFaithful | services/explorer-indexer/src/indexer.rs:219-341 | a tick copies only what the chain shows in its range and handles exactly the range's watched logs in order |
| TickContract.FinishesAdvances | services/explorer-indexer/src/indexer.rs:190-341 | a completed plan folds the range's logs, stores the required headers and leaves fresh snapshots |
| TickContract.BreaksStops | services/explorer-indexer/src/indexer.rs:190-341 | every cut of the plan has folded a prefix of the range's logs and otherwise only added chain state |
| Sync.DetectionComplete | services/explorer-indexer/src/indexer.rs:174-188 | the comparison at the cursor sees a mismatch iff the chain reaches the cursor and some indexed block was replaced; if it reaches the cursor and none was, the index is canonical |
| Sync.ShortChainIdle | services/explorer-indexer/src/indexer.rs:174-200 | on a chain that ends below the cursor a tick changes neither tables nor cursor |
| Sync.CompletedTickIff | services/explorer-indexer/src/indexer.rs:108-350 | a completed tick leaves the index synced iff the tables before it were sane for its chain |
| Sync.InterruptedTickIff | services/explorer-indexer/src/indexer.rs:108-350 | an interrupted tick leaves the index synced iff it committed no rollback, or stored the header at the old cursor and the rows of all logs up to there |
| Sync.TickIff | services/explorer-indexer/src/indexer.rs:108-350 | every tick, completed or interrupted, leaves the index synced iff it is healthy |
| Sync.IndexRefinesChain | services/explorer-indexer/src/indexer.rs:108-350 | over every history of healthy ticks the event tables at or below the cursor equal the fold of the canonical watched logs, and headers and snapshots are the chain's |
| ChainRows.EveryEventHasItsRow | services/explorer-indexer/src/indexer.rs:387-672 | over every healthy history, and every history on a growing chain: each watched deposit, policy, leg, proposal, vote or weight log up to the cursor that is the first for its key has its row, and every column of it is the named field of the event |
| ChainRows.EveryRowHasItsEvent | services/explorer-indexer/src/indexer.rs:387-672 | and every row of those tables up to the cursor is, column by column, that of some watched log of the chain |
| ChainUpdates.NumberedFirst | services/explorer-indexer/src/indexer.rs:387-672 | with increasing log indices no deposit, policy, leg or weight log loses its key to another |
| ChainUpdates.ProposalStatus | services/explorer-indexer/src/indexer.rs:586-643 | a created proposal has status 0 and no execution block until the first later execution on the chain, then status 2 and that block for good |
| ChainUpdates.VaultColumns | services/explorer-indexer/src/indexer.rs:543-582 | a vault row has block, name and transaction of the vault's first registration, and status and capped time of the last status change after it, or 0 and none |
| ChainState.HeaderColumns | services/explorer-indexer/src/indexer.rs:241-287 | each stored header up to the cursor is the hash of the chain up to its block, the hash of its parent and the block's timestamp |
| ChainState.HeadersStored | services/explorer-indexer/src/indexer.rs:241-287 | a completed tick stores the header at its end and of every block of its range with a watched log |
| ChainState.SnapshotColumns | services/explorer-indexer/src/indexer.rs:685-733 | each stored snapshot up to the cursor has the vault's assets and supply at its block, in their columns |
| ChainState.AllSnapshotsShow | services/explorer-indexer/src/indexer.rs:685-733 | on a growing chain so has every stored snapshot, whatever was interrupted |
| ChainState.ValueIsTheChains | clients/explorer-api/src/routes.rs:992-1014 | the reported value of a position is shares times assets over supply of the chain at the vault's latest snapshot, none for a zero supply |
| ChainState.TransactionColumns | services/explorer-indexer/src/indexer.rs:252-265 | each stored transaction is one of its block's, in every column |
| ChainState.EventBlockComplete | services/explorer-indexer/src/indexer.rs:241-267 | a block up to the cursor with a watched log has its header and all its transactions stored, and a snapshot if the log is the vault's |
| Shared.SharedIndexRefines | services/explorer-indexer/src/db.rs:677-687 | the same for each chain over every interleaving of ticks of several chains' indexers on the same tables |
| Anchoring.AlwaysAnchored | services/explorer-indexer/src/indexer.rs:236-341 | over every history, after any cut, each row sits at a height with a stored header; an advancing tick leaves the configured vault and each vault of status 0 a snapshot fewer than 7200 blocks old |
| Reorg.RollbackExact | services/explorer-indexer/src/db.rs:191-221 | of the rows at or below the cursor the rollback removes exactly those whose block left the chain |
| Reorg.PositionsRolledBack | services/explorer-indexer/src/db.rs:191-221 | a wallet position of the chain is removed exactly if its block is above the root |
| Reorg.TickFrame | services/explorer-indexer/src/db.rs:191-221 | a tick never touches another chain's rows |
| Reorg.ShortRollbackSkips | services/explorer-indexer/src/indexer.rs:170-217 | after a completed rollback that ends below the old cursor the next advancing tick leaves the fold of the logs below and above the gap |
| Reorg.BrokenRollbackSkips | services/explorer-indexer/src/indexer.rs:170-217 | the same after a rollback whose tick failed anywhere, whenever the next tick sees no mismatch, even with the cursor's header in place |
| Reorg.ShortRollbackLoses | services/explorer-indexer/src/indexer.rs:170-217 | after every later run of ticks that does not roll back below the old cursor the rows up to it are still those up to the short rollback's end |
| Reorg.BrokenRollbackLoses | services/explorer-indexer/src/indexer.rs:170-217 | the same after a rollback whose tick failed |
| Reorg.DeepRollbackRepairs | services/explorer-indexer/src/indexer.rs:170-217 | a later completed rollback to a root at or below the gap, reaching the cursor, leaves the whole index synced again |
| Reorg.DeepRollbackRepairsBroken | services/explorer-indexer/src/indexer.rs:170-217 | so does one to a root at or below that of a rollback whose tick failed |
| Witness.LostHeight | services/explorer-indexer/src/indexer.rs:170-217 | three completed ticks, concretely, that lose a revocation |
| Witness.ShortChainUnseen | services/explorer-indexer/src/indexer.rs:178-179 | a shorter foreign chain that raises no mismatch, concretely |
| Reorg.SkippedHeightEmpty | services/explorer-indexer/src/indexer.rs:170-217 | tables of that form hold no row at a skipped height |
| Reorg.BlockableIff | services/explorer-indexer/migrations/0005_add_governance_tables.sql:58-73 | a rollback can be refused iff some vote lies below its proposal |
| Reorg.BlockedForever | services/explorer-indexer/src/db.rs:193-221 | a refused rollback is refused by every later tick while the chain only grows, tables and cursor unchanged |
| Reorg.NeverStuck | services/explorer-indexer/src/db.rs:193-221 | over healthy histories of chains whose votes follow their proposals no rollback is refused |
| Witness.RefusedRollback | services/explorer-indexer/src/db.rs:193-221 | two ticks, concretely, after which the rollback a chain needs is refused |
| Poison.NeverPastUndecoded | services/explorer-indexer/src/indexer.rs:289-292 | while every chain has an undecodable watched log in a block, no run of ticks moves the cursor to that block |
| Poison.UndecodedTickFails | services/explorer-indexer/src/indexer.rs:289-292 | every tick whose range contains such a log fails even if every call is answered |
| Poison.NeverPastUnbackedVote | services/explorer-indexer/src/db.rs:526-583 | the same for a vote whose proposal no earlier log created, and neither row ever appears |
| Poison.NeverPastStatelessVault | services/explorer-indexer/src/indexer.rs:303-341 | while an active vault without a snapshot has no state on any chain and no log changes its status, no run of ticks moves the cursor |
| TickFailure.HandledIff | services/explorer-indexer/src/indexer.rs:387-672 | logs can be handled iff each decodes and each vote has its row, or its proposal has one or is created by an earlier log |
| TickFailure.AnsweredTickFailsIff | services/explorer-indexer/src/indexer.rs:166-350 | after every history a tick whose calls are all answered fails iff its rollback is refused, a log of its range cannot be handled, or a vault due for a snapshot has no state on the chain |
| SnapshotRule.SnapshotsExactly | services/explorer-indexer/src/indexer.rs:294-341 | after every history, the snapshots after a completed pass are those before it, one at each block in which the vault emitted a watched log, and one at the end for each vault due there: the configured one and those of status 0 without a snapshot less than 7200 blocks old |
| Witness.GarbledStalls | services/explorer-indexer/src/indexer.rs:398-400 | an undecodable log, concretely: the first tick fails |
| Witness.UnbackedVoteStalls | services/explorer-indexer/src/db.rs:526-583 | a vote without a proposal, concretely: the first tick fails |
| Witness.OrphanedVaultStalls | services/explorer-indexer/src/indexer.rs:735-749 | two ticks, concretely, after which an orphaned registration stalls the indexer |
| CrashReplay.ReindexIff | services/explorer-indexer/src/db.rs:5-8 | handling the same logs twice is a no-op, tallies and statuses included, iff no row was updated only before its creation |
| CrashReplay.CrashThenReplay | services/explorer-indexer/src/indexer.rs:387-672 | a prefix followed by everything equals everything once |
| CrashReplay.ReindexChangesStatus | services/explorer-indexer/src/db.rs:462-486 | the exception, concretely |
| StableChain.StableHistory | services/explorer-indexer/src/indexer.rs:108-350 | on a growing chain, whatever the order of its logs, every tick of every crashing history is healthy, and a completed tick leaves the event tables equal to the fold of the logs up to the cursor, with nothing above |
| StableChain.ReplayedHistory | services/explorer-indexer/src/indexer.rs:108-350 | if no tick was interrupted, in any order of logs, or else if the logs are in order, a completed tick leaves event, proposal and vault tables equal to the replay of all logs, in every column |
| StableChain.CutIndependence | services/explorer-indexer/src/indexer.rs:190-217 | two histories on the same growing chain, with any range per tick, any tips and any crashes: at the same cursor the event rows up to it are equal, after completed ticks the whole event tables are, and every column of the derived tables is if neither indexer was interrupted or the logs are in order |
| StableChain.StableHeaders | services/explorer-indexer/src/indexer.rs:236-287 | over every history on a growing chain, whatever the order of its logs, the blocks table lies between the event heights up to the cursor and the event heights plus the ends of ticks |
| Heartbeat.SnapshotSpacing | services/explorer-indexer/src/indexer.rs:303-341 | over every history in which no tick rolled back, on any chains, consecutive snapshots of the configured vault are at most 7199 blocks plus one range apart |
| Tally.TallyAccounts | services/explorer-indexer/src/db.rs:526-583 | a live proposal's counter is its live votes on that side plus those rollbacks deleted since its creation |
| Tally.NothingLost | services/explorer-indexer/src/db.rs:526-583 | without rollbacks nothing is lost, so counters are exact |
| Tally.HistoryTally | services/explorer-indexer/src/db.rs:191-221 | over every history a live counter is the live votes plus exactly those the history's own rollbacks deleted since its row was created |
| Witness.CounterOvershoots | services/explorer-indexer/src/db.rs:191-221 | two ticks, concretely, that leave a counter of one and no vote |
| Progress.RangeBounds | services/explorer-indexer/src/indexer.rs:190-217 | a completed tick advances iff the next height is within the safe head and the configured end, and then exactly as far as they and the range cap allow |
| Progress.ReachesEndExactly | services/explorer-indexer/src/main.rs:130-158 | from any store at or below the end, with no reorg seen, the cursor is at the end iff at least ceil((end + 1 - from) / max) ticks completed |
| Progress.PollEndsExactly | services/explorer-indexer/src/main.rs:130-158 | from any cursor up to the end, if every completed tick is reported, the loop has stopped iff the number of completed ticks is max(1, ceil((end + 1 - from) / max)), and it never does more; only a loop that starts at the end may stop at a failed tick instead |
| Progress.PollStopsAtEnd | services/explorer-indexer/src/main.rs:130-158 | the loop stops only with the cursor at or beyond the configured end |
| PolicyRead.GetAgent | clients/explorer-api/src/routes.rs:342-369 | the loop returns the newest policy row of the agent on the chain |
| PolicyRead.PolicyReadAgrees | clients/explorer-api/src/routes.rs:342-369 | with the index synced and no policy row above the cursor, that answer is exactly the replay of authorisations and revocations |
| PolicyRead.AgentAfterTick | clients/explorer-api/src/routes.rs:342-369 | end to end: after a completed tick on a growing chain, whatever the order of its logs, the API answers with the replay of the chain |
| ChainUpdates.AgentAnswer | clients/explorer-api/src/routes.rs:342-369 | the answer is the last watched authorisation or revocation of the agent up to the cursor: its kind, its window cap, its block; none if there is none |
| ShareValue.TotalAdds | clients/explorer-api/src/routes.rs:992-1014 | the total counts each holder's shares times assets over supply, rounded down, once |
| ShareValue.NeverOverAllocates | clients/explorer-api/src/routes.rs:992-1014 | reported values of holders within the supply never exceed the assets |
| ShareValue.ShortfallBelowHolders | clients/explorer-api/src/routes.rs:992-1014 | when the holders own the whole supply the shortfall is below their number |
| ShareValue.PositionValue | clients/explorer-api/src/routes.rs:965-1014 | the loop values a position at the latest snapshot of its vault; none without a snapshot or with zero supply |
| ReplayCache.PaymentIdInjective | clients/rust-payment-client/src/replay_cache.rs:63-83 | equal keys iff all six inputs are equal |
| ReplayCache.PaymentIdLayout | clients/rust-payment-client/src/replay_cache.rs:73-82 | the key is 192 bytes: chain id, gateway, agent, order id, amount and idempotency key, each a 32-byte word with its most significant byte first |
| ReplayCache.FitsIff | clients/rust-payment-client/src/replay_cache.rs:63-83 | the inputs that fit are a u64, two 160-bit addresses and three 256-bit words |
| ReplayCache.WriteBack | clients/rust-payment-client/src/replay_cache.rs:252-266 | the stored list is sorted, duplicate-free and holds exactly the map's entries |
| ReplayCache.LoadWriteBack | clients/rust-payment-client/src/replay_cache.rs:190-266 | loading what was written back gives the same map |
| ReplayCache.LastEntryWins | clients/rust-payment-client/src/replay_cache.rs:190-216 | from any list, an id is loaded iff some entry has it, and the last such entry is the one loaded |
| ReplayCache.BeforeIff | clients/rust-payment-client/src/replay_cache.rs:252-266 | the order of the stored list: the first byte that differs decides, and a proper prefix comes first |
| ReplayCache.CacheFile.Insert | clients/rust-payment-client/src/replay_cache.rs:161-188 | the file afterwards is the old map with the entry added or replaced; an unparseable file is left alone |
| ReplayCache.CacheFile.Lookup | clients/rust-payment-client/src/replay_cache.rs:138-152 | the stored tx_hash for the id, none, or a parse error |
| LockStep.Linearizable | clients/rust-payment-client/src/replay_cache.rs:190-249 | in every interleaving each call that returns has exactly one event between its beginning and its return, each lookup returns what the inserts before its event stored, and outside a write the file is exactly the inserts so far |
| LockStep.RealTimeOrder | clients/rust-payment-client/src/replay_cache.rs:190-249 | a call that returned before another began has the earlier event |
| LockStep.LookupFindsInsert | clients/rust-payment-client/src/replay_cache.rs:125-188 | a lookup that begins after an insert under its id returned finds an entry, the one the last insert before its event stored |
| LockStep.ReaderSeesWholeFile | clients/rust-payment-client/src/replay_cache.rs:190-216 | a process holding a lock never reads a half-written file |
| LockStep.LatestWins | clients/rust-payment-client/src/replay_cache.rs:154-188 | the latest insert under an id decides the lookup |
| LockStep.HitIffSameInputs | clients/rust-payment-client/src/replay_cache.rs:125-188 | a lookup hits iff an earlier insert had the same six inputs, whatever the deadlines |
| LockStep.BothSubmitIff | clients/rust-payment-client/src/commands/deposit.rs:347-565 | two deposits under one id both find nothing iff the id was not in the file and no insert under it took effect before the later lookup |
| LockStep.SubmittedTwice | clients/rust-payment-client/src/commands/deposit.rs:347-565 | a run, concretely, in which both submit and the cache keeps only the second transaction |
| LockStep.TornCrashIff | clients/rust-payment-client/src/replay_cache.rs:252-266 | dying inside the write keeps the guarantee iff the file is blank and the cache was empty |
| LockStep.TornWriteLoses | clients/rust-payment-client/src/replay_cache.rs:252-266 | a run, concretely, in which an insert that had returned is gone |
| AuditLog.AuditSink.Rotate | clients/rust-payment-client/src/logging.rs:176-214 | the in-place reverse loop shifts every slot by one, drops the last, and starts a fresh log |
| AuditLog.AuditSink.WriteLine | clients/rust-payment-client/src/logging.rs:153-174 | append, then rotate exactly when the limit is exceeded |
| AuditLog.RotatesIff | clients/rust-payment-client/src/logging.rs:153-214 | a line rotates the log iff the log's size, the line and a newline exceed the limit; then the log is empty, slot 1 is the old log with the line, and every slot is the one before |
| AuditLog.KeptIsSuffix | clients/rust-payment-client/src/logging.rs:153-214 | what the files hold in order is a suffix of everything written |
| AuditLog.RotationDropsOldest | clients/rust-payment-client/src/logging.rs:176-214 | a rotation drops exactly the oldest file |
| AuditLog.NothingLostYet | clients/rust-payment-client/src/logging.rs:153-214 | while a slot is free, writing a line loses nothing |
| AuditLog.AlwaysTidy | clients/rust-payment-client/src/logging.rs:153-214 | at most the kept number of rolled files, without gaps, each over the limit only by its last line; the log within the limit |
| Genesis.ReadWritten | testing/smoke-test/src/genesis_alloc.rs:534-549 | reading a written word gives it back for every 256-bit value |
| Genesis.WordHexText | testing/smoke-test/src/genesis_alloc.rs:524-537 | the written text of a word is exactly 0x and its 64 base-16 digits, most significant first, in '0' to '9' and 'a' to 'f' |
| Genesis.ReadText | testing/smoke-test/src/genesis_alloc.rs:538-549 | a stored 0x and 64 digits of either case reads as its value |
| Genesis.MalformedReadsZero | testing/smoke-test/src/genesis_alloc.rs:538-549 | text with any other character reads as zero |
| Genesis.GrantConserves | testing/smoke-test/src/genesis_alloc.rs:457-481 | supply minus balances is unchanged iff nothing saturates or the grantee held the whole supply |
| Genesis.GrantEffect | testing/smoke-test/src/genesis_alloc.rs:457-481 | the two slots gain the grant, every other key is untouched |
| Genesis.GrantWritten | testing/smoke-test/src/genesis_alloc.rs:436-481 | in every alloc the lower-case text of the holder's slot, and of the supply's, holds the text of the word said before plus the grant, capped; before is the last seed slot of that key in any case, else the ingested storage, else zero |
| Genesis.GrantSpelledOnce | testing/smoke-test/src/genesis_alloc.rs:436-481 | no other key of the alloc spells that slot unless the ingested storage already did |
| Genesis.OtherSlotsUntouched | testing/smoke-test/src/genesis_alloc.rs:427-481 | keys outside the seed and the two granted slots are untouched |
| Genesis.OverlayLast | testing/smoke-test/src/genesis_alloc.rs:439-445 | of seed slots with the same key, without regard to case, the last value counts |
| Genesis.BuildAlloc | testing/smoke-test/src/genesis_alloc.rs:377-482 | fails exactly on a missing ingested address or missing USDC; otherwise each account is its source and only USDC's storage is patched |
| Genesis.AccountColumns | testing/smoke-test/src/genesis_alloc.rs:384-508 | which addresses are in the alloc, and each field of each account: ingested with its defaults, harness, factory, implementation |
| Genesis.HarnessGetsDefault | testing/smoke-test/src/genesis_alloc.rs:397-406 | in every result a harness address other than USDC has the default entry if it is not ingested and the ingested one otherwise |

## Left out

- JSON-RPC, HTTP, SQL and JSON text: the node is a chain whose calls may fail, a statement is an operation on a keyed
  map, the cache file is a list of entries or text that does not parse.
- Hash functions and ABI decoding: hashes are injective and logs arrive decoded (or undecodable); the paymentId is
  represented by the encoding it hashes.
- `chains` and `contracts` tables, `indexed_at`, constant columns and the row counters of a run: bookkeeping without
  influence on the properties.
- Optional vault reads (exit fee, TVL cap, paused): they default on error and feed only snapshot columns.
- Signed 32- and 64-bit widths of heights and log indices; window ids, deadlines, proposal ids and weights do wrap or
  clamp as in the code.
- Transactions, vault rows, proposal status, execution block and counters after a reorg: the code does not roll back all
  of them; column by column they are covered on growing chains, and the counters by the tally accounting.
- Two indexer processes for the same chain at once: ticks of one chain follow each other.
- Sync.Tick: admits a completed tick only with the chain fixed during the tick.
- Indexer.Poll: one node state per tick from a given list, since the loop itself does not end; the `--once` flag is not
  modelled.
- LockStep.Crash: a process death outside the write; death inside it is `LockStep.TornCrash`, and an I/O error in the
  write behaves like it.
- AuditLog.AuditSink.WriteLine: file operations succeed, as the code only reports their failure; the mutex makes writers
  sequential. Files numbered above the kept number are never touched and not part of the model.
- AuditLog.Size: counts the characters of a log, where the code compares its bytes on disk.
- ShareValue.UsdcValue: integer floor in place of the decimal library's scaling.
- Genesis.ReadSlot: the digit separators the number parser may accept are not modelled.
- Router weight queries: they read only the oldest 500 rows.
- The dapp, command line, configuration loading and deployment scripts.
