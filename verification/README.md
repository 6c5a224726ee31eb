# A verified model of the vspd core

vspd registers Decred tickets, takes a fee for each, adds them to voting wallets and
follows them until they are voted, missed or expired. A background updater reacts to
blocks while web handlers read whole ticket records and later write them back, all over
one bbolt store. This project models that store and every actor on it in Dafny, and proves
what each step and each whole run keeps.

## Structure

| file | what it models |
|---|---|
| `tickets.dfy`, `encoding.dfy` | the ticket record, nil and non-nil maps, fixed-width integers |
| `spentscan.dfy` | the scan for spent tickets with its in-place parallel slices, against a naive scan |
| `outcomes.dfy`, `outcomeruns.dfy` | one pass that records outcomes, and whole runs with restarts |
| `feexpub.dfy`, `addressallocator.dfy` | the key table, the address generator and the allocation protocol |
| `votechange.dfy` | the bounded vote-change log and the replay check |
| `lifecycle.dfy`, `interleaved.dfy`, `atomic.dfy` | every write an actor can make; all interleavings of reads and writes; runs where a read and its write-back are one step |
| `helpers.dfy`, `webapi.dfy`, `updater.dfy` | validation, the web handlers and the updater passes that perform those writes |
| `ticketstore.dfy`, `storage.dfy` | the store of decoded tickets; the byte level below it with queries and statistics |
| `upgrades.dfy` | the database upgrades from version 1 to 5 |
| `databaseintegrity.dfy` | the repair of revoked outcomes at start |
| `walletconsistency.dfy` | the periodic check of the voting wallets |

Code that changes state is modelled by methods and classes that are proved against
functions or relations on the old and the new state; the lemmas are about those. Lemmas
whose names end in `Says` restate what such a function amounts to in terms of the raw
chain, fields and bytes alone.

## Assumptions

Everything from outside is an input that may take any value: the answers of dcrd and the
wallets, the clock, whether a write succeeds, the order in which a map or bucket is
visited, and the results of address and key derivation. The theorems assume only:

- the chain is append-only, a ticket is not spent before its purchase height plus maturity, and by at most one block (`SpentOnce`);
- a block filter has no false negatives for the tickets asked for;
- six confirmations imply a block height above zero;
- no two transactions have the same hash, and the empty text is not a transaction;
- marshalling a string map or a version 1 ticket to JSON and back gives it back;
- the counters of the address generator have room (`NoWrap`); `DeriveSkipsInvalid` and `WrappedIndexIsStale` say what happens when they do not;
- a wallet has choices only for agendas it knows, one for each (`Wallet.Valid`);
- retiring a key happens only while the daemon is stopped, because the database file is locked;
- for outcomes over runs (`OutcomeRuns`): the writers other than the scan are atomic, so that none takes back an outcome or a confirmed fee, which `OutcomeCanBeLost` shows stale handlers can do; and no fee becomes confirmed on a ticket already spent below the last scanned block (`InTime`), which `StepMissesNone` shows to be needed;
- for the replay check (`Handled`): the timestamp check and the save of its record are one step, every save succeeds, and every recorded body has a timestamp. After a failed save the log is as before (`SetVoteChoices`), so the same change passes the check again.

`upgrades[0]` is nil in the source, so `Upgrade` requires version 1 or above. A bucket
iterated over while it is changed is treated as a snapshot.

Some promises hold only under a condition, which is proved:

- The comment at database/ticket.go:140-141 says that a duplicate fee address is rejected. The code rejects only a duplicate hash; `AddressesNeverShared` shows that the allocator alone keeps addresses apart.
- "Status only moves forward" holds when reads and write-backs are atomic (`Atomic`), holds under any interleaving in which every write is fresh (`FreshRunMovesForward`), and fails for stale writes (`ConfirmationCanBeUndone`, `OutcomeCanBeLost`).
- A pass settles the chain if and only if all its writes succeed (`PassSettlesChain`), because the last scanned block moves before any outcome is written. A failed write for a ticket spent in the best block costs nothing, because the next pass starts there; one for a ticket spent below it is lost until the daemon restarts (`PassMissesNone`, `FailedWriteLoses`, `LostUntilRestart`, `RestartRecovers`).
- The replay check sees only the window of stored records, and fee payments take places in it unchecked. A change is protected exactly while some record kept is at least as new (`ProtectedWhileKept`); fewer payments than records kept between changes always suffice (`NoReplay`), one more does not (`ReplayAfterPayments`).
- The key table stays well formed if and only if the clock is not zero and the ID does not wrap (`RetireKeepsWellFormed`).
- A rescan starts from the lowest height unless an added ticket has height zero, which the code takes for a height not set yet (`Lowest`).

## Model

| member | source | states |
|---|---|---|
| `SpentScan.TxSpendsTicket` | internal/vspd/spentticket.go:196-204 | true exactly when some input spends output 0 of the ticket |
| `SpentScan.NonOrderPreservingRemove` | internal/vspd/spentticket.go:211-214 | in place: the shortened slice is the old one with its last element at the removed index and nothing else moved |
| `SpentScan.SwapRemoveConserves` | internal/vspd/spentticket.go:206-214 | the removal takes out exactly one occurrence of the element at the index, so nothing else is lost or duplicated |
| `SpentScan.RemoveKeepsPairs` | internal/vspd/spentticket.go:171-174 | removing the same index from both slices leaves each script at the position of its ticket |
| `SpentScan.RemoveConserves` | internal/vspd/spentticket.go:162-174 | found tickets plus remaining tickets stay a permutation of the input |
| `SpentScan.ScanBlock` | internal/vspd/spentticket.go:151-183 | the index step-back loop settles every remaining ticket at this height: reported with the first spending transaction, or shown unspent up to here; it terminates because tickets left minus index falls |
| `SpentScan.SkipBlock` | internal/vspd/spentticket.go:139-142 | a block skipped by a filter without false negatives spends none of the tickets left |
| `SpentScan.ScanHeight` | internal/vspd/spentticket.go:117-188 | one block, skipped or searched, extends the settled range by one; the early break is taken only with no ticket left |
| `SpentScan.FindSpentTickets` | internal/vspd/spentticket.go:68-192 | a completed scan reports, as a multiset, exactly what a naive scan of every block in the range reports; a start above the best block is an error; it completes whenever every call is answered and every ticket parses |
| `SpentScan.NaiveScanReports` | internal/vspd/spentticket.go:63-67 | the naive scan holds one entry for each list element with a spender, naming the first height and the first stake transaction there, and nothing else |
| `SpentScan.EntrySays` | internal/vspd/spentticket.go:155-169 | on the raw chain: for the first block in range with a stake transaction that has output 0 of the ticket as an input, and the first such transaction in it, the report names that height, that transaction and purchase height plus maturity plus expiry |
| `SpentScan.NoEntry` | internal/vspd/spentticket.go:151-158 | a ticket no stake transaction in range spends is not reported |
| `SpentScan.NaiveScanCounts` | internal/vspd/spentticket.go:171-183 | each spent list element is reported exactly once |
| `SpentScan.NaiveScanPermutes` | internal/vspd/spentticket.go:151-183 | the order in which swap-removes visit the tickets does not change what is reported |
| `SpentScan.FirstSpendUnique` | internal/vspd/spentticket.go:155-169 | first height and first transaction determine the reported spender |
| `SpentScan.SpentTicket.Missed` | internal/vspd/spentticket.go:30-61 | a revocation is a miss unless its height is the expiry height or the one after |
| `Tickets.EarliestPurchaseHeight` | database/ticket.go:112-127 | the lowest non-zero purchase height of the list, zero exactly when there is none |
| `Outcomes.Vspd.StartHeight` | internal/vspd/update.go:291-299 | the last scanned block, or, with none since the start, the maturity of the lowest non-zero purchase height of a votable ticket |
| `Outcomes.Vspd.RecordOutcomes` | internal/vspd/update.go:314-340 | writes exactly the outcomes reached before shutdown whose write succeeds, and changes no other record |
| `Outcomes.Vspd.SetOutcomes` | internal/vspd/update.go:277-341 | a pass does nothing or moves the last scanned block to the best block and records what its scan found; it scans whenever there is a votable ticket and every call is answered, and writes every outcome due whose write succeeds |
| `Outcomes.PassWrites` | internal/vspd/update.go:314-331 | spelled out on the raw chain: a ticket with a confirmed fee and no outcome whose write succeeds is recorded as voted iff its first spender is a vote, as expired iff that is no vote and came at the expiry height or one later, and as missed otherwise; nothing else of it or of any other ticket changes |
| `Outcomes.CompleteSays` | internal/vspd/update.go:314-340 | a complete pass has written every votable ticket with a spender in range |
| `Outcomes.SpentIsDue` | internal/vspd/update.go:301-329 | everything a scan of the votable tickets reports is an outcome due for a stored votable ticket |
| `Outcomes.DueIsSpent` | internal/vspd/update.go:301-314 | every ticket an outcome is due for is in the report |
| `OutcomeRuns.DueWhenSpent` | internal/vspd/update.go:291-312 | with no earlier gap a votable ticket is due exactly when the chain spends it, wherever the pass starts |
| `OutcomeRuns.PassSettlesChain` | internal/vspd/update.go:312-340 | after a pass no votable ticket is spent on the chain if and only if every write the pass owed succeeded |
| `OutcomeRuns.PassMissesNone` | internal/vspd/update.go:301-340 | after a pass no votable ticket has a spender below the best block if and only if the writes of those that had one succeeded |
| `OutcomeRuns.StepMissesNone` | internal/vspd/update.go:277-341 | any step keeps the no-gap invariant if and only if a pass gets those writes through and other writers confirm no fee of a ticket already spent below the last scanned block |
| `OutcomeRuns.StepStaysSane` | internal/vspd/update.go:291-312 | whatever fails, only a restart moves the last scanned block down, and a pass starts where the last one ended |
| `OutcomeRuns.NoOutcomeLost` | internal/vspd/update.go:277-341 | over any run with any restarts and atomic other writers, in which the writes owed below each best block succeed, no votable ticket is spent below the last scanned block, and none at all right after a pass exactly when all its writes succeeded |
| `OutcomeRuns.DueOrTooLate` | internal/vspd/update.go:297-301 | a pass finds a spent ticket if and only if it was not spent below where the pass starts |
| `OutcomeRuns.FailedWriteLoses` | internal/vspd/update.go:312-336 | a failed write leaves the ticket as it was, and loses its outcome if and only if it was spent below the best block |
| `OutcomeRuns.LostUntilRestart` | internal/vspd/update.go:291-340 | over any run without a restart, whatever passes, blocks and writes by others it holds, a ticket spent below the last scanned block stays recorded as votable |
| `OutcomeRuns.RestartRecovers` | internal/vspd/update.go:292-296 | from any state a restart starts the no-gap invariant afresh, and the first pass finds every votable ticket that is spent |
| `OutcomeRuns.StepKeepsOutcomesTrue` | internal/vspd/update.go:322-331 | any step from any state with true outcomes keeps them true, whatever earlier or present writes fail |
| `OutcomeRuns.OutcomesStayTrue` | internal/vspd/update.go:277-341 | over any run with any failed writes and restarts, every recorded outcome is the one a scan of the whole chain gives |
| `OutcomeRuns.TrueOutcomeSays` | internal/vspd/spentticket.go:26-61 | spelled out: a recorded outcome belongs to a ticket with a confirmed fee and is what the first transaction on the chain that spends it says |
| `OutcomeRuns.PassIsStep` | internal/vspd/update.go:301-340 | a pass as specified for `SetOutcomes` is a step of these runs |
| `OutcomeRuns.ServingIsAllowed` | internal/vspd/update.go:199-208 | atomic handlers and the other updater steps do only what those runs allow other writers |
| `FeeXPubs.XPubBucket.constructor` | database/database.go:138-148 | a new database holds one key, ID 0, unused and not retired |
| `FeeXPubs.XPubBucket.ActiveXPub` | database/feexpub.go:51-66 | the record with the highest ID, whatever order the table is visited in |
| `FeeXPubs.XPubBucket.RetireXPub` | database/feexpub.go:70-108 | refused exactly when the key was ever used or the store fails; otherwise the active key is marked and the new one appended in one transaction |
| `FeeXPubs.XPubBucket.SetLastAddressIndex` | database/feexpub.go:146-157 | stores the index in the active record only, or nothing |
| `FeeXPubs.ActiveIsUnretired` | database/feexpub.go:49-66 | in a well-formed table the active record is the last one and the only one not retired |
| `FeeXPubs.RetireKeepsWellFormed` | database/feexpub.go:70-108 | retiring with an unused key keeps IDs contiguous, keys distinct and one key unretired if and only if the clock is not zero and the uint32 ID does not wrap |
| `FeeXPubs.RetireKeepsRecords` | database/feexpub.go:86-105 | retiring changes no old key and no old index |
| `FeeXPubs.SetIndexKeepsWellFormed` | database/feexpub.go:146-157 | updating the index keeps the table well formed and touches no other record |
| `AddressAllocator.AddressGenerator.NextAddress` | internal/webapi/addressgenerator.go:57-92 | the counter moves exactly as the bounded skip loop says, and an address comes from the child at the counter |
| `AddressAllocator.DeriveSkipsInvalid` | internal/webapi/addressgenerator.go:57-92 | one to three steps, past invalid children only; the index is where the counter stops, above the old one exactly when the uint32 did not wrap |
| `AddressAllocator.DeriveSays` | internal/webapi/addressgenerator.go:61-82 | the index is that of the first valid child among the next three, if all before it are invalid; otherwise there is none |
| `AddressAllocator.YieldsSays` | internal/webapi/addressgenerator.go:57-92 | an address comes out exactly if there is such an index and its key has one |
| `AddressAllocator.WrappedIndexIsStale` | internal/webapi/addressgenerator.go:57-67 | at the end of the counter the next index is 0, which is not above the last |
| `AddressAllocator.GetNewFeeAddress` | internal/webapi/getfeeaddress.go:27-42 | an address is handed out exactly when the skip loop ends at a child with one and its index is stored; it is that child's address, and otherwise the table is unchanged |
| `AddressAllocator.GrantKeepsOwned` | internal/webapi/getfeeaddress.go:31-41 | an index above the persisted one is an address no ticket holds |
| `AddressAllocator.StepInv` | internal/webapi/getfeeaddress.go:175-207 | every step, a crash at any point included, keeps the ownership of addresses |
| `AddressAllocator.AddressesNeverShared` | internal/webapi/getfeeaddress.go:23-42 | over all runs with concurrent requests, failed writes, crashes, restarts and retirements, different ticket hashes never hold the same (xpub ID, index), and every stored index lies in 1..LastUsedIdx of its key |
| `AddressAllocator.AllocationIsSteps` | internal/webapi/getfeeaddress.go:27-42 | getting an address is the steps Derived and Persisted of those runs, and leaves exactly the grant its ticket is stored with |
| `AddressAllocator.FailedAllocationIsSteps` | internal/webapi/getfeeaddress.go:31-39 | getting none is a step of those runs too, and leaves table and grants alone |
| `AddressAllocator.AddressTextsDiffer` | database/ticket.go:140-142 | with an injective derivation the address texts differ too, although the insert itself does not check this |
| `VoteChanges.VoteChangeBucket.Scan` | database/votechange.go:39-57 | count, highest and lowest serial of the records, in whatever order the little-endian keys are visited |
| `VoteChanges.VoteChangeBucket.SaveVoteChange` | database/votechange.go:28-87 | the oldest record goes if the limit is reached, and the new one gets the serial after the newest |
| `VoteChanges.VoteChangeBucket.GetVoteChanges` | database/votechange.go:91-122 | every stored record under its decoded serial |
| `VoteChanges.SaveSlidesWindow` | database/votechange.go:59-83 | saving turns the window on a history into the window on the history with the record appended |
| `VoteChanges.BucketIsWindow` | database/votechange.go:24-87 | after n saves on a fresh bucket the keys are the contiguous interval ending at n-1 with min(n, max(1, limit)) entries, and key i holds the i-th record |
| `VoteChanges.BucketSays` | database/votechange.go:59-83 | the same in numbers: min(n, max(1, limit)) records under the serials up to n-1, serial i the i-th record saved |
| `VoteChanges.SaveNeverOutgrows` | database/votechange.go:59-66 | a bucket at or past the limit never grows |
| `VoteChanges.CheckTimestamp` | internal/webapi/setvotechoices.go:75-94 | passes exactly when every stored record parses and is older; refuses only over a record as new, fails only over one that does not parse |
| `VoteChanges.CheckSeesWindow` | internal/webapi/setvotechoices.go:65-94 | the check is the check against the window on the whole history |
| `VoteChanges.HandledIsProduced` | internal/webapi/setvotechoices.go:67-94 | checks against the logs as saved so far are checks against the windows on the whole history |
| `VoteChanges.NoReplay` | internal/webapi/setvotechoices.go:65-94 | over all logs a bucket goes through while handlers check and save, the timestamps of accepted changes strictly increase, evicted records included, while fewer payments than records kept fall between them |
| `VoteChanges.ProtectedWhileKept` | internal/webapi/setvotechoices.go:75-94 | no change as old as a given one can be accepted if and only if some record still kept is at least as new |
| `VoteChanges.ReplayAfterPayments` | internal/webapi/payfee.go:295-303 | the bound is tight for every limit: with as many older payments as records kept, handlers accept the very same change twice |
| `Helpers.ValidConsensusVoteChoices` | internal/webapi/helpers.go:24-46 | valid exactly when every agenda exists and its first entry offers the choice |
| `Helpers.ChoicesSay` | internal/webapi/helpers.go:27-43 | every choice is one that the first agenda in the list with its ID offers |
| `Helpers.ValidTreasuryPolicy` | internal/webapi/helpers.go:48-65 | valid exactly when every key is 33 bytes of hex and every policy is one of the five options |
| `Helpers.ValidTSpendPolicy` | internal/webapi/helpers.go:67-86 | valid exactly when every key is a 64 character hash and every policy is one of the five options |
| `Helpers.CanTicketVote` | internal/webapi/helpers.go:162-186 | able to vote exactly when not too old and immature or called live; an error exactly when a ticket of live age gets none from the node |
| `Helpers.TooOldStaysTooOld` | internal/webapi/helpers.go:167-177 | once too old it stays too old, and while immature it was always able to vote |
| `TicketStore.TicketBucket.InsertNewTicket` | database/ticket.go:142-160 | only a duplicate hash is rejected |
| `TicketStore.TicketBucket.UpdateTicket` | database/ticket.go:270-282 | an unknown hash is an error and changes nothing; otherwise the whole record is replaced |
| `TicketStore.TicketBucket.DeleteTicket` | database/ticket.go:257-268 | removes exactly that record |
| `WebAPI.Server.VspAuth` | internal/webapi/middleware.go:394-510 | a request passes exactly when hash, store, lookup and signature allow it; a known ticket is handed on whole as stored, under its own hash and with no nil map, so no later overlay can panic |
| `Tickets.NormalizedSays` | database/encoding.go:12-29 | reading back turns nil maps into empty ones and changes nothing else |
| `TicketStore.TicketBucket.FilterTickets` | database/ticket.go:448-471 | every matching ticket once and no other |
| `Lifecycle.NewTicketOK` | internal/webapi/getfeeaddress.go:185-205 | a new record satisfies the record invariant |
| `Lifecycle.ActionKeepsStatusOK` | internal/webapi/payfee.go:223-287 | every write keeps: broadcast, confirmed and error imply a confirmed ticket; confirmed iff a purchase height; hex empty for a confirmed fee and present for received, broadcast and error; no fee means no hash or key; an outcome implies a confirmed fee |
| `Lifecycle.ActionKeepsFee` | internal/webapi/payfee.go:156-183 | a write that keeps or takes a fee leaves a record naming a transaction whose first matching output pays at least the record's own fee, because renewal never touches such a record |
| `Lifecycle.PaysSays` | internal/webapi/payfee.go:156-183 | what paying the fee is: the first output with the version and script of the fee address has a value, and at least the fee |
| `Lifecycle.ChangeSays` | internal/webapi/setvotechoices.go:125-135 | in each of the three maps the request's keys take its values and other keys keep theirs; no other field moves |
| `Lifecycle.ActionKeepsPreferences` | internal/webapi/setvotechoices.go:96-135 | every stored preference stays valid |
| `Lifecycle.ActionKeepsRecordOK` | internal/vspd/update.go:109-208 | every write by any actor turns a record in order into a record in order |
| `Lifecycle.NamedFeeSuffices` | internal/webapi/payfee.go:176-183 | any transaction with the record's fee hash pays the record's fee amount |
| `Interleaved.StepInv` | internal/webapi/middleware.go:428-438 | one read or write-back of any actor, or a crash, keeps the invariant of all stored and in-flight records |
| `Interleaved.EveryRecordOK` | internal/vspd/update.go:20-54 | under every interleaving, lost updates included, every stored and in-flight record satisfies the invariant |
| `Interleaved.EveryFeeSuffices` | internal/webapi/payfee.go:156-183 | spelled out, for every stored and in-flight record with a received, broadcast or confirmed fee: a transaction with its fee hash whose first output with the version and script of its fee address has a value and at least its fee amount |
| `Interleaved.NoMissingHeights` | internal/vspd/databaseintegrity.go:30-43 | in every reachable state the repair of purchase heights has nothing to do, and every received fee suffices |
| `Interleaved.FreshStepMovesForward` | internal/webapi/middleware.go:428-508 | a step of any actor moves no confirmed ticket back and deletes none, if what it writes back or deletes differs from the stored record at most in preferences |
| `Interleaved.FreshRunMovesForward` | internal/webapi/middleware.go:428-508 | so interleaved runs in which every write is fresh move forward as the atomic ones do |
| `Interleaved.UninterruptedIsAtomic` | internal/webapi/payfee.go:240-283 | an actor whose read and writes are not interrupted does exactly one step of the atomic model |
| `Interleaved.StaleWriteBack` | internal/webapi/setvotechoices.go:125-143 | a handler's write-back can undo any write made since its read, and moves the ticket forward exactly when that write had changed nothing that must not go back |
| `Interleaved.ConfirmationCanBeUndone` | internal/webapi/setvotechoices.go:137-143 | so a confirmed fee can become unconfirmed again |
| `Interleaved.OutcomeCanBeLost` | internal/webapi/setvotechoices.go:137-143 | and a recorded outcome can be lost |
| `Atomic.ActionFollowsEdges` | internal/webapi/payfee.go:51-59 | fee status moves only none to received to broadcast to confirmed, received or broadcast to error, error to received |
| `Atomic.StepMovesForward` | internal/vspd/update.go:65-121 | with atomic handlers each step moves every confirmed ticket forward and never deletes it |
| `Atomic.LifecycleMovesForward` | internal/vspd/update.go:124-208 | over whole runs a confirmed fee stays confirmed with the same transaction and key, and an outcome is written once, a revoked one becoming only missed or expired |
| `Atomic.BroadcastNeverDeleted` | internal/vspd/update.go:65-106 | a ticket whose fee was ever broadcast is never deleted |
| `Atomic.PreferencesAreLastSaid` | internal/webapi/setvotechoices.go:122-135 | each of a ticket's three maps of preferences is, key by key, what the last payment with a valid map, a later change or a later removal says |
| `WebAPI.FindFeePaid` | internal/webapi/payfee.go:156-164 | the value of the first output with the wanted version and script, and zero if none has them |
| `WebAPI.CheckFeeTx` | internal/webapi/payfee.go:128-183 | accepts exactly the transactions that pay the fee, and tells apart exactly those that pay too little and those that pay nothing or are not sane |
| `WebAPI.PayingOthersIsNoFee` | internal/webapi/payfee.go:166-174 | a transaction with no output to the fee address pays no fee, whatever it pays to others |
| `WebAPI.Server.CheckPayment` | internal/webapi/payfee.go:30-217 | accepts exactly under all conditions together; each refusal is answered exactly under its own condition |
| `WebAPI.AcceptedPaymentSays` | internal/webapi/payfee.go:38-217 | spelled out: the exact condition on ticket, node, key and outputs under which a payment is accepted |
| `WebAPI.FeeRefusalSays` | internal/webapi/payfee.go:128-183 | spelled out: exactly when a fee is invalid and when it is too small |
| `WebAPI.Server.TakePayment` | internal/webapi/payfee.go:223-238 | the received record: invalid preferences leave the old ones in place |
| `WebAPI.Server.StoreFee` | internal/webapi/payfee.go:240-287 | the one or two writes that follow, and when the response is a success |
| `WebAPI.Server.PayFee` | internal/webapi/payfee.go:23-308 | the store changes exactly when every check passes, success exactly when the writes and the broadcast go through, each refusal exactly under its condition, and only a success is recorded in the log |
| `WebAPI.PaymentSays` | internal/webapi/payfee.go:223-287 | spelled out field by field: key, text, hash and status of the fee and each map of preferences after an accepted payment; nothing else in the store changes |
| `WebAPI.PayFeeServes` | internal/webapi/payfee.go:240-287 | a payment on the record it read is one step of the atomic protocol, or none |
| `WebAPI.Server.OverlayEntries` | internal/webapi/setvotechoices.go:125-135 | the request's entries over the ticket's, which must not be a nil map |
| `WebAPI.Server.CheckChange` | internal/webapi/setvotechoices.go:29-120 | accepts exactly under all conditions together, with the timestamp read off the body that is recorded; each refusal is answered under its own condition |
| `WebAPI.Server.SetVoteChoices` | internal/webapi/setvotechoices.go:20-203 | success exactly when the change is accepted and the write done; then in each of the three stored maps the request's keys have its values, other keys and fields and tickets are as before, and the log gets the request's body unless saving it fails; any other response changes nothing |
| `WebAPI.AcceptedChangeSays` | internal/webapi/setvotechoices.go:29-120 | spelled out: the exact condition on ticket, preferences, timestamp and log under which a change is accepted |
| `WebAPI.SetVoteChoicesServes` | internal/webapi/setvotechoices.go:137-143 | an accepted change is one step of the atomic protocol |
| `WebAPI.Server.FeeAddress` | internal/webapi/getfeeaddress.go:70-225 | a known ticket is renewed only after expiry and never once its fee is known, and then holds the current fee as amount and the new time as expiration with every other field and ticket as before; an unknown one is stored with exactly the address, index, fee, expiry and height it was given; success and each refusal exactly under their conditions; an index is stored even if the insert then fails |
| `WebAPI.FeeAddressAllocates` | internal/webapi/getfeeaddress.go:175-207 | adding a ticket is the steps Derived, Persisted and Insert of the allocation protocol |
| `WebAPI.FeeAddressServes` | internal/webapi/getfeeaddress.go:130-207 | renewal and insertion are steps of the atomic protocol |
| `Updater.UpdateUnconfirmed` | internal/vspd/update.go:56-122 | confirms tickets with six confirmations, deletes those the node knows nothing about, and changes no other |
| `Updater.UnconfirmedSays` | internal/vspd/update.go:65-121 | spelled out for each ticket: six confirmations set height and mark, no information deletes, anything else leaves it |
| `Updater.BroadcastFees` | internal/vspd/update.go:124-156 | marks each pending fee broadcast or faulty |
| `Updater.BroadcastSays` | internal/vspd/update.go:133-155 | spelled out for each ticket: broadcast if the node takes the transaction, faulty if not, untouched unless confirmed with a received fee |
| `Updater.SetChoicesOnWallet` | internal/vspd/update.go:231-249 | drops exactly the agendas the wallet does not know from the ticket while the loop runs over them, and from the store as far as the writes succeed |
| `Updater.AddToWallets` | internal/vspd/update.go:158-275 | marks each broadcast fee faulty or confirmed and clears its hex; each stored ticket loses only agendas some wallet it was added to rejects, and exactly those if the writes that delete them succeed; no other ticket changes |
| `Updater.FeeCheckedSays` | internal/vspd/update.go:177-210 | spelled out for each ticket: confirmed without its hex at six confirmations, faulty if the node cannot report it, else untouched |
| `Updater.DropsSay` | internal/vspd/update.go:222-249 | an agenda is dropped only if some wallet the ticket was added to does not know it, and then always if the writes succeed |
| `Updater.CheckPurchaseHeights` | internal/vspd/databaseintegrity.go:33-73 | sets the missing heights the node reports |
| `Updater.HeightSays` | internal/vspd/databaseintegrity.go:54-69 | spelled out for each ticket: only a confirmed one without a height is given the one reported |
| `DatabaseIntegrity.CheckRevoked` | internal/vspd/databaseintegrity.go:75-134 | a completed scan gives each revoked ticket found its outcome exactly if its write succeeds, and changes no other record; it completes if every call is answered and every ticket parses, and otherwise changes nothing |
| `DatabaseIntegrity.WriteOutcomes` | internal/vspd/databaseintegrity.go:108-127 | a ticket found to have voted is skipped, the others are written one by one |
| `DatabaseIntegrity.RepairOne` | internal/vspd/databaseintegrity.go:109-126 | one write repairs exactly its own ticket |
| `DatabaseIntegrity.RepairWrites` | internal/vspd/databaseintegrity.go:108-127 | spelled out on the raw chain: a revoked ticket whose first spender is no vote becomes expired or missed by its height if its write succeeds; one whose first spender is a vote, one without a spender and any other ticket stay as they are |
| `Updater.StepPass` | internal/vspd/update.go:65-121 | dealing with the listed tickets one by one is dealing with every matching ticket |
| `Updater.UpdaterKeepsStore` | internal/vspd/update.go:56-275 | whatever node and wallets answer and whichever writes fail, every pass leaves every record in order, and the height repair changes nothing |
| `Encoding.LittleEndianRoundTrip` | database/encoding.go:41-59 | n little-endian bytes read back as the number, below 256^n |
| `Encoding.Int64RoundTrip` | database/encoding.go:41-49 | int64, negative values included, reads back as written |
| `Encoding.UInt32RoundTrip` | database/encoding.go:51-59 | uint32 reads back as written |
| `Encoding.Int64Layout` | database/encoding.go:41-45 | eight bytes of the two's complement, least significant first |
| `Encoding.UInt32Layout` | database/encoding.go:51-55 | four bytes, least significant first |
| `Encoding.Json.BytesToStringMap` | database/encoding.go:12-29 | a map read from the store is never nil: an absent value is an empty map, a text that does not parse is an error, anything else has the parsed entries |
| `Storage.Bucket.PutTicket` | database/ticket.go:162-216 | after the puts the bucket holds every field of the ticket and nothing of what was there before |
| `Storage.CodecRoundTrip` | database/ticket.go:164-255 | reading after writing, over any previous content, gives the ticket with nil maps as empty ones |
| `Storage.MissingPoliciesAreEmpty` | database/ticket.go:239-252 | a ticket stored before there were policies reads with empty ones |
| `Storage.TextsLayout` | database/ticket.go:162-216 | which text is stored under which key |
| `Storage.NumbersLayout` | database/ticket.go:188-206 | which number is stored under which key, and one byte for a truth value |
| `Storage.StatusTextsCompare` | database/ticket.go:18-48 | comparing a stored text with a constant is comparing the decoded status |
| `Storage.FilterPushdown` | database/ticket.go:388-446 | each of the eight queries on raw bytes holds exactly when the predicate holds of the decoded ticket |
| `Storage.QueriesAreRoles` | database/ticket.go:388-446 | each query lists exactly the tickets that the updater pass or check written for it may work on |
| `Storage.FilterTickets` | database/ticket.go:448-471 | filtering raw bytes gives exactly the decoded tickets that match, in order; an error exactly when a matching ticket does not decode |
| `Storage.StoredTicketsDecode` | database/ticket.go:142-160 | buckets written by the store always decode, to the tickets written |
| `Storage.ComputeStats` | database/ticket.go:337-386 | one pass over raw bytes gives the counts by outcome and the fee sums by period, each wrapped as an int64 |
| `Storage.StatsOfDecoded` | database/ticket.go:348-379 | the statistics are those of the decoded tickets |
| `Storage.StatsAgreeWithQueries` | database/ticket.go:364-378 | voting, voted and missed equal the sizes of the votable, voted and missed lists, and the four counts cover the confirmed fees |
| `Storage.RevenueSays` | database/ticket.go:338-362 | one more confirmed fee counts towards the lifetime, towards 8064 blocks and towards 288 blocks, by its purchase height or if it has none yet |
| `Storage.RevenuesAreOrdered` | database/ticket.go:352-362 | 24 hours at most 28 days at most lifetime at most what the fee transactions paid, without overflow while the fees fit an int64 |
| `Upgrades.Database.RemoveOldFeeTx` | database/upgrade_v2.go:20-64 | one transaction: every row rewritten as specified, or nothing if one does not parse or a write fails |
| `Upgrades.Database.TicketsToBuckets` | database/upgrade_v3.go:20-100 | one transaction: every row replaced by a bucket holding its ticket, or nothing |
| `Upgrades.Database.AddAltSignAddrs` | database/upgrade_v4.go:19-36 | creates the bucket, or fails if it exists |
| `Upgrades.Database.MoveXPub` | database/upgrade_v5.go:28-84 | key and index moved to record 0 and every ticket given xpub ID 0, or nothing; a missing key is an error |
| `Upgrades.Database.Upgrade` | database/upgrades.go:74-96 | runs the due upgrades in order; wherever it stops, the file it leaves has the same target as before; a later version is refused and untouched |
| `Upgrades.UpgradeKeeps` | database/upgrades.go:46-53 | each upgrade of a well-formed file goes through, leaves it well formed and keeps what its tickets mean |
| `Upgrades.BucketSaysSame` | database/upgrade_v3.go:43-77 | the bucket of a migrated ticket decodes to what its JSON row said |
| `Upgrades.UpgradePreservesMeaning` | database/upgrades.go:74-96 | from any well-formed file at version 1 to 5 the target is a well-formed version 5 with the same decoded tickets but for cleared hex on confirmed fees, and the old key and index as record 0 |
| `Upgrades.KeyAndIndexMove` | database/upgrade_v5.go:32-65 | spelled out: the key and the index, as its four bytes were written, are record 0 of the version 5 file; an index never written is zero |
| `Upgrades.RowMoves` | database/upgrade_v3.go:43-77 | spelled out: a row of version 1 or 2 ends as a bucket that decodes to each of its fields, xpub ID 0 and no policies, without the hex of a fee confirmed in version 1 |
| `Upgrades.BucketMoves` | database/upgrade_v5.go:67-72 | spelled out: a bucket of version 3 or 4 keeps every value but the xpub ID, which becomes zero; one of version 5 is untouched |
| `WalletConsistency.AddMissingTickets` | internal/vspd/walletconsistency.go:59-110 | adds exactly the missing tickets whose calls succeed, and rescans once if any was added, from the lowest height among them unless one is zero |
| `WalletConsistency.SetChoices` | internal/vspd/walletconsistency.go:145-180 | sets every choice the wallet does not have and knows, drops every agenda it does not know from memory and store, and keeps the rest |
| `WalletConsistency.SetAllChoices` | internal/vspd/walletconsistency.go:122-183 | the same for every listed ticket on one wallet; a missing ticket is left alone |
| `WalletConsistency.CheckWalletConsistency` | internal/vspd/walletconsistency.go:15-185 | both steps over all wallets: wallets, store and the deletions shared between them end as specified, whatever calls fail |
| `WalletConsistency.CheckSettles` | internal/vspd/walletconsistency.go:113-184 | without errors every wallet then holds every votable ticket and every choice left in the store, and the agendas deleted are exactly those some wallet does not know |
| `WalletConsistency.SettledSays` | internal/vspd/walletconsistency.go:136-157 | what settled is, field by field |
| `WalletConsistency.OtherChoicesStay` | internal/vspd/walletconsistency.go:145-180 | a check, whatever fails, leaves one choice for each agenda, and touches no choice for other tickets or for agendas the store says nothing about |
| `WalletConsistency.SettledIsFixed` | internal/vspd/walletconsistency.go:52-184 | a check of a settled store, whatever fails in it, changes nothing |
| `WalletConsistency.SecondCheckIdle` | internal/vspd/walletconsistency.go:15-185 | after a check without errors a second one, whatever fails in it, changes neither store nor wallets |
| `WalletConsistency.OnlyUnknownDropped` | internal/vspd/walletconsistency.go:165-175 | whatever fails, the store loses no choice but for agendas some wallet does not know |
| `WalletConsistency.RescansFromLowest` | internal/vspd/walletconsistency.go:94-110 | each wallet rescans exactly if it missed a votable ticket, from the lowest purchase height of those missing |

## Left out

- HTTP, sessions, rate limiting, templates, admin pages, configuration, backups and logging.
- dcrd, dcrdwallet and RPC transport: each call is an input that may be any result or an error.
- Signatures, address and WIF decoding, key derivation, filter internals, fee calculation and transaction sanity checks: abstract functions.
- The JSON text format and bbolt pages: map and ticket texts are an abstract round trip, a bbolt update is one transaction that happens or does not. Strings are byte sequences.
- Shutdown requests: modelled in the spent-ticket scan and in the recording of outcomes only; the other loops run to their end.
- Deleting the vote-change log and the alternate signing address together with a ticket, and setting that address.
- The wallet calls after an accepted vote change (internal/webapi/setvotechoices.go:145-180): they change no stored state, and `CheckWalletConsistency` repairs what they miss.
- Agreement of the wallets on tspend and treasury policies: the source does not check it.
- The two responses for a fee that cannot be broadcast are one. The conditions under which a request body binds are one flag.
- SpentScan.FindSpentTickets: heights are unbounded integers; the chain's own heights never come near 2^63.
- Storage.RevenuesAreOrdered: takes fees to be non-negative and their sum to fit an int64, as the coin supply implies.
- WalletConsistency.AddMissingTickets: a ticket added to a wallet is listed by it at once, whether or not the rescan succeeds; what a wallet misses until it rescans is inside the wallet.
- WalletConsistency.CheckSettles: takes wallets, node and store to agree on the height of a votable ticket, because a wallet is asked only for tickets from the oldest stored height on.
- VoteChanges.NoReplay: is about histories of at most 2^32 records; past that the uint32 key wraps.
- VoteChanges.BucketIsWindow: is about serials below 2^32; past that the uint32 key wraps.
- Interleaved.EveryRecordOK: is about runs from an empty store; `StepInv` is about any store whose records are in order.
- Version detection, file locking and the creation of buckets other than the key table in `CreateNew` and `Open`.
