# HOPR node: tickets, channels, indexer and on-chain actions

This project models how a HOPR node keeps its view of the chain and acts on it, and states what that
machinery guarantees.

- Contract logs drive a channel table, a ticket table with value counters, the outgoing ticket indices,
  the Safe's balance and allowance, and the minimum winning probability (`Handlers`, `EventHandlers`,
  `TicketStore`). The channels contract is modelled call by call with its reverts and logs (`Channels`,
  `ContractProperties`).
- `NodeSystem` puts contract, indexer, ticket arrivals, redeem calls and queued redemptions into one step
  system; `ActionTracker`, `TrackerSafety` and `Confirmations` do the same for the two-phase matching of expectations.
  Statements about them hold for every interleaving of the steps.
- `LogStorage`, `Indexer`, `SyncLatch` and `BlockIndexer` model the start modes, fast sync, the resume
  point, the block stream and the sync latch. `CrashReplay` and `TornBlock` say what running a block again does,
  `OutgoingIndices` what losing the memory does, `ChannelHistories` and `LateStart` what missing logs does;
  `CrashRecovery` composes them with the crash points between the commits of one block.
- `Payload`, `ActionQueue`, `ChannelActions` and `ActionExecution` follow an action from its guard to the
  transaction, the contract, the derived event and the confirmation.
- `SafeBalance`, `Multisend`, `NetworkRegistry`, `RegistryMethods` and `WaitForFunds` are self-contained.

Code that changes state in place is modelled by classes and loops (`ContractEventHandlers`,
`TicketRedeemActions`, `IndexerActionTracker`, `ChainIndexer`, `HoprNetworkRegistry`), each method tied to a
specification function; the lemmas are about those functions. Hashes are injective tokens: a channel id is
its pair of parties, a transaction hash a number.

## Where the code and its documentation part ways

- Fetching tickets for redemption is documented as happening under an exclusive write lock
  (`chain/actions/src/redeem.rs:15-18`). The code reads rows and then updates each by its row id without
  checking its state again; the mutex future is created but never awaited (`db/sql/src/tickets.rs:453-494`).
  Redemption is exclusive exactly while no two calls have read the same row at once
  (`NodeSystem.ExclusionExact`), and any untouched ticket admits two redemptions
  (`NodeSystem.TwoCallsBreak`).
- A pending outgoing channel may be finalized from its closure time on according to the node
  (`common/internal-types/src/channels.rs:110-127`), only after it according to the contract
  (`ethereum/contracts/src/Channels.sol:592-594`): `ChannelActions.FinalizedOneSecondEarly`.
- A full re-sync without fast sync clears the index but keeps the checksums, so the stream starts behind the
  stored logs: `CrashRecovery.SlowResyncExactly` says when that shows. A node is sent there by a crash if none of
  the tables its emptiness check looks at has a row yet, whatever else it has indexed
  (`db/sql/src/info.rs:131-156`): `CrashRecovery.SlowStartOverExactly`, `CrashRecovery.StartOverForgetsMinimum`.
- A block that was stored but not processed when the node died is lost without fast sync, because storing
  its logs again is an error and drops the block: `CrashRecovery.SlowRestartLosesExactly`.
- Outgoing ticket indices live in memory, are flushed every few seconds and never lowered on disk
  (`hopr/hopr-lib/src/lib.rs:940-955`, `db/sql/src/tickets.rs:736-760`). A crash can forget a redemption that
  was already processed (`CrashRecovery.OutgoingIndexLost`) and brings back values from before a reset;
  `CrashRecovery.OutgoingRecoversExactly` says when neither shows.
- At the start only the next ticket of each channel is reset if it was in redemption; all later ones stay marked
  (`NodeSystem.RestartRecoversNextOnly`).
- An action can report a timeout although its event was delivered, exactly while its row is in the table
  (`ActionTracker.TimedOutThoughResolvedExactly`).
- Below ten nanoseconds the growing delay of the funding loop is rounded back to itself, so the loop never
  gives up (`WaitForFunds.GivesUpExactly`; for ten, the product of the two doubles is rounded to eleven).
- An expectation is registered only after its transaction was submitted (`chain/actions/src/action_queue.rs:284-287`).
  If the transaction is scanned in between, the action is never confirmed (`Confirmations.ScannedTooEarly`).
- Funding a channel between two other nodes passes the guard, pays a channel of this node and can never be
  confirmed: `ChannelActions.ForeignFundIsNeverConfirmed`.
- The ticket builder admits index 2^48 and epoch 2^24, which the contract's widths cannot hold:
  `Payload.RedeemLosesNoBitsExactly`.

## Model

| member | source | states |
|---|---|---|
| TicketStore.MarkConserves | db/sql/src/tickets.rs:328-400 | marking tickets moves their value to a counter and loses none, on every channel |
| TicketStore.MarkTwice | db/sql/src/tickets.rs:335-400 | marking a selector's channels one after another is marking them at once |
| HandlerProperties.EntryFollows | chain/indexer/src/handlers.rs:188-483 | the channel table is one automaton per channel: a log moves the entry it is about and no other |
| HandlerProperties.AtMostOneMatch | chain/indexer/src/handlers.rs:356-412 | with disjoint index ranges the several-matches error cannot occur |
| HandlerProperties.RedeemPartition | chain/indexer/src/handlers.rs:346-459 | a redeem log redeems the at most one ticket in redemption that ends at its index, neglects exactly the other lower ones of that channel and epoch, keeps the rest, and credits just that |
| HandlerProperties.StoreFollows | chain/indexer/src/handlers.rs:249-454 | what any log does to tickets and counters is two markings of exactly described rows |
| HandlerProperties.LogConservesValue | chain/indexer/src/handlers.rs:180-506 | no log gains or loses ticket value on any channel |
| HandlerProperties.LogCounters | chain/indexer/src/handlers.rs:249-746 | each counter after any log, field by field: settled value is redeemed, other removed value rejected by a raised minimum and neglected else |
| HandlerProperties.RaisedMinimumExactly | chain/indexer/src/handlers.rs:694-754 | a ticket goes exactly if the minimum rises by more than 10^-8 as a fraction, its channel leads to this node, its epoch is present and its probability is below the new minimum |
| HandlerProperties.EventShowsEntry | chain/indexer/src/handlers.rs:188-483 | when a channel log fails and with which error; else its event is of its kind and shows the entry as stored, the balance difference and the settled ticket |
| HandlerProperties.OtherLogsGiveNoEvent | chain/indexer/src/handlers.rs:786-840 | other logs give no event; one of an unknown contract fails and changes nothing |
| HandlerProperties.TicketsStayCurrent | chain/indexer/src/handlers.rs:249-454 | live tickets keep the channel's present epoch and an index not below its ticket index |
| HandlerProperties.OutgoingStaysAhead | chain/indexer/src/handlers.rs:413-430 | while a process runs, the outgoing index of an own outgoing channel never falls behind its redeemed index |
| HandlerProperties.LastValuesStand | chain/indexer/src/handlers.rs:542-754 | after any logs the allowance is the Safe's last approval for the channels contract, the minimum winning probability the last one set |
| Handlers.FailedHandlerChangesNothing | chain/indexer/src/handlers.rs:878-907 | a handler that returns an error leaves the state as it was, so skipping it is sound |
| EventHandlers.ContractEventHandlers.MarkOneChannel | db/sql/src/tickets.rs:335-400 | removes and credits just what the selector picks on one channel |
| EventHandlers.ContractEventHandlers.MarkTicketsAs | db/sql/src/tickets.rs:328-410 | the loop over channels removes exactly the selected rows and adds their value to the one counter of the marker |
| EventHandlers.ContractEventHandlers.OnClosedEvent | chain/indexer/src/handlers.rs:231-285 | closing an incoming, outgoing or foreign channel |
| EventHandlers.ContractEventHandlers.OnOpenedEvent | chain/indexer/src/handlers.rs:286-345 | first opening, re-opening with the next epoch, or a refused re-opening |
| EventHandlers.ContractEventHandlers.OnRedeemedEvent | chain/indexer/src/handlers.rs:346-461 | settling a redeem log for an incoming, outgoing or foreign channel |
| EventHandlers.ContractEventHandlers.OnWinProbEvent | chain/indexer/src/handlers.rs:694-754 | a raised minimum rejects the unlikely tickets of the current epochs of all incoming channels |
| EventHandlers.ContractEventHandlers.CollectBlockEvents | chain/indexer/src/handlers.rs:878-910 | a block is a fold over its logs, and its events are those of the logs that did not fail |
| Channels.ExecuteStaysSound | ethereum/contracts/src/Channels.sol:370-618 | closed channels hold nothing, open ones have two distinct real parties and an epoch, all widths hold |
| ContractProperties.MinedExactly | ethereum/contracts/src/Channels.sol:256-618 | when each call is mined rather than reverted |
| ContractProperties.InitiationWaits | ethereum/contracts/src/Channels.sol:481-498 | a mined initiation makes the channel pending until block time plus notice period |
| ContractProperties.RunKeepsTokens | ethereum/contracts/src/Channels.sol:370-806 | over every run, the tokens locked in channels are those brought in less those paid out |
| ContractProperties.RedeemedAtMostOnce | ethereum/contracts/src/Channels.sol:389-425 | no ticket of an epoch with an index that a redeemed one covers or passed is ever paid, whatever happens in between |
| LedgerRefinement.CallMirrored | ethereum/contracts/src/Channels.sol:370-806 | the logs of a mined call take a channel's entry to the contract's new state |
| LedgerRefinement.RunAgrees | chain/indexer/src/handlers.rs:189-483 | over every run of transactions the index agrees with the contract, own channels field by field |
| LedgerRefinement.FreshNodeAgrees | chain/indexer/src/handlers.rs:189-345 | a node indexing from the deployment agrees ever after |
| LedgerRefinement.OwnEpochCountsReopenings | chain/indexer/src/handlers.rs:300-328 | own epochs grow by one per re-opening and never otherwise |
| LedgerRefinement.ForeignEpochExact | chain/indexer/src/handlers.rs:269-280 | the epoch shown for an open foreign channel is right exactly in its first epoch |
| LedgerRefinement.ForeignEpochDiffers | chain/indexer/src/handlers.rs:269-344 | opening, closing and re-opening between strangers shows a wrong epoch |
| CrashReplay.ReplayAbsorbed | chain/indexer/src/block.rs:419-423 | a block the contract can emit, applied twice, is absorbed up to the Safe balance exactly if it does not both open and close an own channel |
| CrashReplay.StoreAbsorbed | chain/indexer/src/block.rs:419-423 | whatever the block, its second application moves no ticket and no value |
| CrashReplay.RunAdmissible | ethereum/contracts/src/Channels.sol:370-806 | what the contract emits about a channel opens it only when closed and touches it only when not |
| CrashReplay.ContractBlockReplay | chain/indexer/src/block.rs:207-239 | the same for every block of contract transactions on an agreeing index |
| OutgoingIndices.DiskHoldsTheLargest | db/sql/src/tickets.rs:736-760 | a persisted outgoing index is the largest value ever flushed, so a reset never reaches the disk |
| OutgoingIndices.FormOfKnown | chain/indexer/src/handlers.rs:231-430 | what logs do to the outgoing index of a known own channel is a reset, or a raise to the highest redeemed index |
| OutgoingIndices.ReloadExactly | db/sql/src/tickets.rs:700-734 | starting from the persisted indices changes nothing else, and an index is later as it would have been exactly if the logs reset it or raise both values to the same |
| TornBlock.TornBlockExactly | chain/indexer/src/handlers.rs:878-910 | a crash between the ticket database and the index commit, then running the block again, ends as an undisturbed run, the Safe balance included; an outgoing index exactly if the block makes up for what was not on disk |
| TornBlock.ReplayKeepsStore | db/sql/src/ticket_manager.rs:294-313 | tickets already marked for some of the block's logs are not marked again |
| NodeSystem.TicketsStaySound | chain/actions/src/redeem.rs:138-256 | no step of any component makes a live ticket stale, overlapping or ahead of its channel |
| NodeSystem.RunKeepsInvariant | chain/actions/src/action_queue.rs:367-421 | over every interleaving, restarts included: tickets current, index behind the contract but never at odds with it, value conserved |
| NodeSystem.RunKeepsOutgoingAhead | db/sql/src/tickets.rs:736-760 | over every interleaving the outgoing indices stay ahead of redemptions, if each restart finds them flushed far enough |
| NodeSystem.RestartRecoversNextOnly | db/sql/src/tickets.rs:1246-1268 | a ticket in redemption at a stop is recovered at the start exactly if it is the next of its channel |
| NodeSystem.ReachableKeepsInvariant | chain/actions/src/action_queue.rs:367-421 | all of that in every state a fresh node can reach |
| NodeSystem.StepConserves | chain/actions/src/action_queue.rs:391-402 | live, redeemed, neglected and rejected value add up to what arrived |
| NodeSystem.CaughtUpAgrees | chain/indexer/src/block.rs:405-480 | a node without unindexed logs agrees with the contract |
| NodeSystem.FailureGivesBack | chain/actions/src/action_queue.rs:389-402 | a failed redemption returns its own ticket to untouched, once, and no other row |
| NodeSystem.RedemptionsMove | chain/actions/src/action_queue.rs:367-421 | the stages of a redemption, and that it leaves exactly when given up, done, failed or forgotten by a restart |
| NodeSystem.CarefulRunIsExclusive | chain/actions/src/redeem.rs:15-18 | with reads kept apart, no ticket is in two redemptions, and one in redemption is marked so or gone |
| NodeSystem.ExclusionExact | db/sql/src/tickets.rs:453-494 | exclusivity for ever is exactly pending reads being apart |
| NodeSystem.OverlappingReadBreaks | db/sql/src/tickets.rs:453-494 | a step keeps it for ever exactly if it reads no row another call has read and not updated |
| NodeSystem.TwoCallsBreak | db/sql/src/tickets.rs:453-494 | from a node at rest two redeem calls can redeem any untouched ticket twice |
| RedeemActions.TicketRedeemActions.UpdateTicketStatesAndFetch | db/sql/src/tickets.rs:453-494 | undisturbed, lists and marks exactly the selected rows |
| RedeemActions.TicketRedeemActions.RedeemTickets | chain/actions/src/redeem.rs:153-209 | marks the selection and queues each provable ticket once, or returns early |
| RedeemActions.TicketRedeemActions.RedeemTicketsInChannel | chain/actions/src/redeem.rs:138-150 | the selection is the untouched current tickets of the channel at or above its index |
| RedeemActions.TicketRedeemActions.RedeemTicketsWithCounterparty | chain/actions/src/redeem.rs:121-135 | towards one counterparty: no such channel, nothing to redeem, no domain separator, or the channel's redeemable tickets marked and queued |
| RedeemActions.TicketRedeemActions.RedeemAllTickets | chain/actions/src/redeem.rs:89-118 | exactly the redeemable tickets of all incoming channels are marked and queued, each once |
| RedeemActions.RedeemableTowards | chain/actions/src/redeem.rs:89-150 | which tickets those are: untouched, of the present epoch, at or above the ticket index, on a channel towards this node, aggregated if asked |
| RedeemActions.TicketRedeemActions.RedeemTicket | chain/actions/src/redeem.rs:212-256 | each error of a single redemption with its condition; the ticket stays marked on the late ones |
| RedeemActions.TicketRedeemActions.WorkOffQueue | chain/actions/src/action_queue.rs:367-421 | draining the queue gives back exactly the failed tickets |
| ActionTracker.ScanIsLookup | chain/actions/src/action_state.rs:107-114 | scanning the table finds at most what one lookup by hash finds |
| ActionTracker.IndexerActionTracker.ScanForMatches | chain/actions/src/action_state.rs:107-120 | the keys of exactly the expectations the event passes |
| ActionTracker.IndexerActionTracker.ResolveMatches | chain/actions/src/action_state.rs:121-140 | removes the keys, sends to who still listens, returns just those expectations |
| ActionTracker.IndexerActionTracker.RegisterExpectation | chain/actions/src/action_state.rs:143-158 | accepted exactly if the hash is free; a refusal changes nothing |
| ActionTracker.ConfirmedByOwnEvent | chain/actions/src/action_queue.rs:284-307 | with hashes never reused, an action is confirmed only by an event of its own transaction that it expects |
| ActionTracker.EveryExpectationIsAccountedFor | chain/actions/src/action_state.rs:107-163 | each registered expectation is pending, resolved, dropped or unregistered, and just one of these |
| ActionTracker.FinishedForEver | chain/actions/src/action_queue.rs:287-307 | a finished action keeps its result and its hash never returns to the table |
| TrackerSafety.SafetyExact | chain/actions/src/action_state.rs:107-140 | from any state, with hashes reused or not before it, everyone is for ever sent only what it expects exactly if no outstanding scan holds a listening registrant's hash with an event it does not expect |
| TrackerSafety.ReuseIsSafeExactly | chain/actions/src/action_state.rs:107-158 | submitting under a hash an earlier action has had stays safe exactly if no outstanding scan holds the hash with an event the new action rejects |
| ActionTracker.TimedOutThoughResolvedExactly | chain/actions/src/action_queue.rs:287-307 | a waiting action can come to report a timeout although its event was delivered exactly while its row is in the table and the event is one it expects |
| Payload.FundLosesNoBits | chain/actions/src/payload.rs:372-396 | a fund request that is generated carries the exact amount in 96 bits |
| Payload.RedeemLosesNoBitsExactly | chain/actions/src/payload.rs:545-575 | a buildable ticket is converted without loss exactly if index and epoch are not the builder's bound |
| Payload.Widths | chain/actions/src/payload.rs:372-396 | the constants are the contract's field widths |
| Payload.LargestBalance | common/internal-types/src/channels.rs:80-82 | the node's and the contract's largest balance are both 10^25 |
| BigEndian.NarrowKeepsLowBytes | chain/actions/src/payload.rs:386-386 | cutting leading bytes off splits a number into its low part and a multiple of that part's range |
| ActionQueue.MinedActionIsConfirmed | chain/actions/src/action_queue.rs:168-245 | when the transaction is mined on an agreeing index, the awaited event is among its events exactly if the action is confirmable: fund and close on own channels, open on a closed channel, redeem always |
| ActionQueue.PreparedExactly | chain/actions/src/action_queue.rs:168-245 | which request each action submits, or which error it meets instead |
| ActionQueue.ConfirmedMeansDone | chain/actions/src/action_queue.rs:169-245 | if an event of any transaction is what an action waits for, the transaction did to that channel what the action is for |
| ActionQueue.FundEvents | chain/indexer/src/handlers.rs:210-226 | the computed balance difference equals the funded amount, with or without an opening |
| ActionQueue.RedeemEvents | chain/indexer/src/handlers.rs:189-461 | a redemption yields its amount as decrease of one channel and increase of the channel back, and the settled event with the new index |
| ActionQueue.OwnTransactionConfirms | chain/actions/src/action_queue.rs:284-307 | a mined confirmable action, registered or about to be, can be confirmed by an event of its own transaction as long as those are still to be scanned |
| Confirmations.ConfirmableExactly | chain/actions/src/action_queue.rs:284-307 | over all runs, an event can confirm an action exactly if it did, was sent in time, is held by a scan or still to come while the row is there, or is still to come when the action has yet to register |
| Confirmations.ScannedTooEarly | chain/actions/src/action_queue.rs:284-287 | an action whose transaction was scanned before it registered is confirmed in no run |
| ActionExecution.ExecuteAction | chain/actions/src/action_queue.rs:168-310 | confirmed by the first event that passes the test, else timed out; its hash is gone afterwards, any other row exactly if a handled event passes its test, and nothing is touched on the early errors |
| ActionExecution.RowSurvivesExactly | chain/actions/src/action_state.rs:107-140 | a row outlives a sequence of events, unchanged, exactly if none passes its test |
| ActionExecution.EventReachesOwnExpectation | chain/actions/src/action_state.rs:107-140 | an event reaches a waiting action exactly if it passes its test |
| ChannelActions.OpenGuardExactly | chain/actions/src/channels.rs:65-124 | when an opening is accepted and when each refusal is given |
| ChannelActions.FundGuardExactly | chain/actions/src/channels.rs:127-171 | the same for funding |
| ChannelActions.CloseGuardExactly | chain/actions/src/channels.rs:174-228 | the same for closing, with the remaining time and a failed redemption |
| ChannelActions.AcceptedOpenIsSubmitted | chain/actions/src/channels.rs:65-124 | an accepted opening passes every later local check with its whole stake |
| ChannelActions.AcceptedFundIsSubmittedExactly | chain/actions/src/channels.rs:127-171 | an accepted funding passes them exactly if the channel does not lead to this node |
| ChannelActions.AcceptedCloseIsSubmittedExactly | chain/actions/src/channels.rs:174-228 | an accepted closing passes them exactly if the counterparty is another node |
| ChannelActions.AcceptedOpenIsMinedExactly | chain/actions/src/channels.rs:65-124 | on an agreeing index the contract mines it exactly if the transfer passes, no party is zero and an epoch is left |
| ChannelActions.AcceptedFundIsMinedExactly | chain/actions/src/channels.rs:127-171 | an accepted outgoing funding is mined exactly if the transfer passes |
| ChannelActions.AcceptedCloseIsMinedExactly | chain/actions/src/channels.rs:174-228 | what the contract demands beyond its outside checks for each kind of closing the node accepts |
| ChannelActions.FinalizedOneSecondEarly | chain/actions/src/channels.rs:197-210 | a finalization the node accepts is rejected in exactly the second of the closure time |
| ChannelActions.IncomingCloseWaitsNeedlessly | chain/actions/src/channels.rs:197-210 | the receiving end of a pending channel is made to wait though the contract would close it at once |
| ChannelActions.ForeignFundIsNeverConfirmed | chain/actions/src/channels.rs:155-166 | funding a channel between others pays an own channel and can never be confirmed |
| LogStorage.FlagsKeepRaw | db/sql/src/logs.rs:207-270 | setting flags and checksums changes no log |
| LogStorage.FlagsExactly | db/sql/src/logs.rs:207-353 | each update changes its flag on exactly its rows, and a checksum update covers every row |
| LogStorage.LogsAtStretch | db/sql/src/logs.rs:119-145 | reading a stretch of blocks by number yields its logs in order |
| Indexer.StartFolds | chain/indexer/src/block.rs:157-320 | in every mode and for all flags a start is one fold over the logs it replays and the unstored ones |
| Indexer.FirstStart | chain/indexer/src/block.rs:256-258 | a first start, in any mode, folds the chain from the configured start block on, that block included |
| Indexer.StartsAtConfiguredBlock | chain/indexer/src/block.rs:240-258 | so does every start with no stored block beyond the configured one, or with no checksum and no fast sync, for the blocks not stored |
| Indexer.ResumesExactly | chain/indexer/src/block.rs:240-258 | the stream starts after the last block with a checksum if the configured start lies before it, else at the configured start |
| Indexer.ProcessedIsCovered | chain/indexer/src/block.rs:424-428 | after any block was processed the next start resumes behind everything stored |
| Indexer.StoredIsNotCovered | db/sql/src/logs.rs:45-90 | storing a block does not move the resume point and leaves it unprocessed |
| Indexer.StreamStores | chain/indexer/src/block.rs:280-308 | what the stream brings is stored in order and unchanged |
| Indexer.FastSyncFromScratch | chain/indexer/src/block.rs:185-239 | fast sync then the stream equals one ordered fold over the chain |
| Indexer.FastSyncContinues | chain/indexer/src/block.rs:176-239 | so does continuing after a block-aligned processed prefix, but for the outgoing indices that later logs do not make up for |
| Indexer.SlowStartSkipsTheStore | chain/indexer/src/block.rs:188-258 | without fast sync all stored logs are skipped, processed or not |
| CrashRecovery.RestartFolds | chain/indexer/src/block.rs:167-258 | for each crash point of any block and all four modes, a restart folds known logs over what the crash left, with outgoing indices from the disk |
| CrashRecovery.StreamedBlockIsHandled | chain/indexer/src/block.rs:264-310 | a streamed block is in the state these results start from |
| CrashRecovery.HandlingAdvances | chain/indexer/src/block.rs:219-238 | so is each block of the fast sync loop after the one before it |
| CrashRecovery.StartingOverIsHandled | chain/indexer/src/block.rs:196-202 | and starting over begins with the first stored block |
| CrashRecovery.RestartWithMemory | chain/indexer/src/block.rs:405-480 | continuing with its memory a restart would reach the whole fold, but for a committed block folded twice or unprocessed stored ones left out |
| CrashRecovery.FastRestartExactly | chain/indexer/src/block.rs:196-239 | with fast sync that continues, a crash at any point of any block is recovered from, up to Safe balance and outgoing indices, exactly if no own channel opens and closes in a block that was committed and not yet marked |
| CrashRecovery.FastStartOverExactly | chain/indexer/src/block.rs:196-239 | with fast sync that finds the tables empty and starts over, it is recovered from, the Safe balance included, and an outgoing index exactly if the chain makes up for what was not on disk |
| CrashRecovery.OutgoingRecoversExactly | db/sql/src/tickets.rs:700-760 | when a restart continues and leaves nothing out, the outgoing index of an own channel is recovered exactly if the logs after it reset it or raise persisted and lost value to the same |
| CrashRecovery.OutgoingIndexLost | hopr/hopr-lib/src/lib.rs:940-955 | a redemption processed but not flushed before a crash is forgotten, and the next index to issue starts below it |
| CrashRecovery.SlowRestartAfterCommit | chain/indexer/src/block.rs:196-258 | without fast sync and with a non-empty index, the last stored block is neither lost nor repeated once committed |
| CrashRecovery.SlowRestartLosesExactly | db/sql/src/logs.rs:45-90 | without fast sync and with a non-empty index, stored blocks that were not committed are lost, and the channel table is still right exactly if the loss is harmless for every channel |
| CrashRecovery.SlowStartOverExactly | chain/indexer/src/block.rs:180-194 | without fast sync and with empty tables, a restart has the fold's whole index exactly if the late start is harmless for channels, allowance, minimum probability, Safe balance and outgoing indices |
| CrashRecovery.StartOverForgetsMinimum | db/sql/src/info.rs:131-156 | a committed block with one oracle log is undone if no table the emptiness check looks at has a row |
| ChannelHistories.MissedLogsExactly | chain/indexer/src/handlers.rs:189-483 | missing logs of an own channel goes unnoticed exactly if they neither open nor close it and later logs close it or set what they changed |
| ChannelHistories.ForeignMissedLogsExactly | chain/indexer/src/handlers.rs:189-483 | the same for a channel between others |
| CrashRecovery.SlowResyncExactly | chain/indexer/src/block.rs:188-194 | a full re-sync without fast sync has the fold's whole index exactly if the late start is harmless for every part, its channel table exactly if it is for every channel; which own channels it knows |
| LateStart.LateIndexExactly | chain/indexer/src/handlers.rs:180-754 | an index that starts behind some logs ends like one that folded them exactly if each part is made up for |
| LateStart.TwinsStay | chain/indexer/src/handlers.rs:249-454 | what logs do to tickets depends on own channels alone |
| SyncLatch.EgressFromTheHead | chain/indexer/src/block.rs:255-315 | events passed on are exactly those of all blocks from the first that reaches the recorded head, in order, announced once |
| SyncLatch.AnnouncedOnce | chain/indexer/src/block.rs:520-573 | a synced node stays synced and is announced exactly when it becomes so |
| SyncLatch.BlocksGiveTheirEvents | chain/indexer/src/block.rs:280-310 | the events of a stretch of blocks are those of the one fold over the logs not stored before; a dropped block gives none |
| BlockIndexer.ChainIndexer.ProcessBlock | chain/indexer/src/block.rs:405-480 | index, flags and checksums after a block |
| BlockIndexer.ChainIndexer.FastSync | chain/indexer/src/block.rs:219-238 | the loop over stored block numbers |
| BlockIndexer.ChainIndexer.PersistOutgoingTicketIndices | db/sql/src/tickets.rs:736-770 | the loop raises each persisted index that is behind the one in memory and lowers none |
| BlockIndexer.ChainIndexer.StoreLogs | db/sql/src/logs.rs:45-90 | a block with a log already stored goes no further |
| BlockIndexer.ChainIndexer.RunStream | chain/indexer/src/block.rs:264-315 | the stream loop with its latch and egress |
| BlockIndexer.ChainIndexer.Start | chain/indexer/src/block.rs:157-320 | all four start modes end as specified |
| SafeBalance.FoldTracksLedger | chain/indexer/src/handlers.rs:514-538 | folding all transfers gives the ledger balance plus what the Safe sent to itself, and nothing saturates |
| SafeBalance.BalanceIsExact | chain/indexer/src/handlers.rs:514-538 | exact when the supply fits 256 bits and there is no self-transfer |
| SafeBalance.SelfTransferMiscounts | chain/indexer/src/handlers.rs:526-536 | one transfer is miscounted exactly if it is a positive self-transfer below the bound |
| SafeBalance.FoldIsClamped | chain/indexer/src/handlers.rs:526-538 | however often it saturates, a block moves the balance by its net amount, held between what an empty and a full Safe would end with |
| SafeBalance.ReplayIsRightExactly | chain/indexer/src/handlers.rs:526-538 | a replayed block leaves the balance right exactly if it moved nothing on balance, or it is already at the bound the net moves towards |
| Multisend.BuildMultisendTx | hopli/src/methods.rs:138-146 | the loop concatenates the packed transactions in order |
| Multisend.RoundTrip | hopli/src/methods.rs:125-146 | parsing a payload recovers exactly the list |
| Multisend.ParseIsUnpacking | hopli/src/methods.rs:125-146 | every parsable buffer is the payload of what it parses to |
| Multisend.PackedIsInjective | hopli/src/methods.rs:125-146 | different lists have different payloads |
| Multisend.PackedConcat | hopli/src/methods.rs:138-146 | concatenating lists is concatenating payloads |
| NetworkRegistry.ReconcilesExactly | hopli/src/methods.rs:557-617 | for any requests, the calls succeed exactly if no two pending ones clash, and the last pending request for a node stands |
| NetworkRegistry.FailureLeaves | hopli/src/methods.rs:592-608 | when a call fails: the registry is untouched, or the mismatched nodes stay removed |
| NetworkRegistry.ReachesRequested | hopli/src/methods.rs:557-617 | distinct nodes with real safes end as requested, others unchanged, and both counts are right |
| NetworkRegistry.SecondRunIsIdle | hopli/src/methods.rs:544-551 | a second run changes nothing and returns (0, 0) |
| NetworkRegistry.DeregisterExactly | ethereum/contracts/src/NetworkRegistry.sol:244-257 | the contract call succeeds exactly for distinct registered nodes and removes just them |
| NetworkRegistry.DeregistersExactly | hopli/src/methods.rs:619-650 | the command works exactly if no registered node is named twice; then all named nodes are gone |
| RegistryMethods.HoprNetworkRegistry.ManagerDeregister | ethereum/contracts/src/NetworkRegistry.sol:244-257 | all or nothing |
| RegistryMethods.HoprNetworkRegistry.ManagerRegister | ethereum/contracts/src/NetworkRegistry.sol:213-236 | all or nothing |
| RegistryMethods.RegisterSafesAndNodes | hopli/src/methods.rs:557-617 | the loop's two lists, the calls and the counts, including a revert between the calls |
| RegistryMethods.DeregisterNodes | hopli/src/methods.rs:623-650 | the same for deregistration |
| WaitForFunds.Wait | chain/api/src/lib.rs:84-105 | terminates; time slept is twenty times the growth of the delay, at most 21 times the maximum; succeeds exactly at the first sufficient balance |
| WaitForFunds.GivesUpExactly | chain/api/src/lib.rs:90-103 | in whole nanoseconds, polling without funds ever ends exactly from a maximum of 11 on, and for 10 if 10.5 is rounded up |

## Left out

- NodeSystem.StepConserves: ticket aggregation changes the status of tickets only; replacing tickets by an aggregate is done elsewhere and is not modelled.
- NodeSystem.CarefulRunIsExclusive: a fetching call reads its rows at one moment, as a database cursor over a snapshot does; rows streamed later are not modelled.
- NodeSystem.ReachableKeepsInvariant: ticket indices are taken to arrive at most once per channel and epoch, with ranges that do not overlap, on a channel that is open or pending to close, as packet processing ensures; the issuing side is not modelled. A restart here is between blocks; CrashRecovery has the crashes within one.
- NodeSystem.TwoCallsBreak: shows that some run redeems twice; how likely two calls overlap in time is outside the model.
- LedgerRefinement.RunAgrees: signatures, proofs of relay, winning checks and token transfers of the contract are one parameter per call; the multisig and node-safe checks are part of it.
- CrashReplay.ReplayAbsorbed: domain separators, announcements, registry rows and the ticket price are overwritten by their logs in the same way and are not in the index modelled here.
- TornBlock.TornBlockExactly: no new tickets arrive between crash and replay.
- CrashRecovery.OutgoingRecoversExactly: the values on disk are arbitrary; issuing tickets also raises an outgoing index and is not modelled, so the value lost is the one the logs gave.
- CrashRecovery.SlowRestartLosesExactly: says when the channel table is right; tickets and counters a lost block would have moved stay where the crash left them.
- CrashRecovery.SlowStartOverExactly: whether the tables are empty is a parameter of a restart, as accounts, announcements and registry rows, which the check also looks at, are not modelled; an index cleared at the first start is the reference.
- CrashRecovery.RestartFolds: a block's logs are stored together, so a block is stored whole or not at all; database failures other than a stop are not modelled.
- Indexer.FastSyncFromScratch: checksums are present or not; their hash values are not modelled, nor is the stream's choice of an earlier block when the resume point lies beyond the chain's head.
- SyncLatch.EgressFromTheHead: blocks arrive at or beyond the start block, and the channel that takes the events has room; other arrivals are covered by AnnouncedOnce.
- TrackerSafety.ReuseIsSafeExactly: a hash in use by an action that is still active is not reused; a chain does not deliver one transaction hash twice, so this is what the code would do if it did (`ActionTracker.ReusedHashMisleads` is such a run). Without reuse a node is safe from its start on (`TrackerSafety.StartIsSafe`).
- WaitForFunds.Wait: delays are real numbers; how rounding to nanoseconds changes whether the loop ends is in GivesUpExactly.
- RegistryMethods.RegisterSafesAndNodes: the contract's count of nodes per account, its roles and its events are not modelled.
- RedeemActions.TicketRedeemActions.WorkOffQueue: the queue's tasks run side by side in the node; the method is the schedule that finishes each before the next, NodeSystem has all the others.
- ActionExecution.ExecuteAction: covers the schedule in which whole events arrive one after another during the wait; ActionTracker has all interleavings.
- ChannelActions.AcceptedCloseIsMinedExactly: redeeming before closing an incoming channel enters only as succeeding or failing, since RedeemActions covers the redemption itself.
- Times are whole seconds; the node's sub-second clock would not change a comparison with a whole closure time.
- Ticket counters are unbounded numbers, since amounts of less than 2^96 cannot fill 256 bits.
- Winning probabilities are compared in integer units of 2^-52 that stand for the code's floating-point numbers.
- Withdrawals, announcements and Safe registration as actions: the first is not awaited through the indexer, the others only compare one value.
- RPC, HTTP, retries, snapshots, configuration, metrics, keys and cryptography.
- The payload generator for nodes without a Safe, which the node does not use.
