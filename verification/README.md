# Verification model of the donation-to-feeder system

The system turns donations into feedings. Payments become satoshi credit in a daemon's ledger; when the
credit reaches a threshold the daemon asks a gateway to feed once; the gateway commands an owner script
that switches an actuator on for a second; a recovery reader certifies completion from persisted history.
Around this path stand the valuation of Monero receipts, the provider inbox, admission of public
invoices, the overlay event stream, exact decimals and a crash-safe file replacement.

The model keeps each component's own form. Stores, the worker, the owner script, the overlay connection
and the file transaction are classes whose methods update fields in place. Each method is proved equal to
a transition function of its module, and the properties are proved about runs of those functions. One SQL
transaction is one step; a failed transaction changes nothing. Integers are unbounded, and the program's
64-bit and 128-bit limits are written out wherever a check or a product depends on them.

- `GatewayStore`, `GatewayServer`: admission of feed requests, refusal tombstones, handler stages, client checks.
- `FeedLedger`, `FeedRuntime`, `FeedWorker`: the daemon's feed tables, the abstract machine they refine, and the worker.
- `FeederOwner`, `OwnerReader`: the owner script with its receipt ledger, and the reader of its paged history.
- `OwnerRequests`, `ReaderDecisions`, `GatewayDecisions`, `LedgerDecisions`, `CreditOutcomes`, `StrikeDecisions`,
  `OverlayDelivery`: exactly when each operation admits, refuses, holds, posts, sends or resets, with every condition
  and number written out on the rows, times and codes it sees, and what follows for whole runs.
- `FeedProtocol`: all four parties composed. Every message stays on the wire and may be delivered late, again, out of
  order or never; any party may crash between any two steps; other clients and operators act when a property allows it.
- `FeedSteps`: which actions move which part of that composition, and how.
- `FeedSafety`: what every run of the composed system keeps. `FeedProgress`, `FeedRelease`: exactly which unresolved
  attempts it can still settle by itself. `FeedWitness`: a concrete feeding, and how a restart can strand it.
- `CreditTerms`, `CreditLedger`, `CreditInvariants`, `CreditRuns`: quotes, floor valuation, receipts, grants, holds.
- `StrikeInbox`, `StrikeScan`, `StrikeCredit`, `Admission`: the provider inbox, the recovery scan, their convergence, and
  invoice admission.
- `Overlay`: one overlay connection over a growing event log.
- `Rationals`, `Decimals`, `Oracle`: reduced fractions, decimal texts, and the market rate.
- `FileTransaction`: resumable apply and rollback of a set of files.

Assumptions: identities returned by `Uuid::new_v4()` are new; clocks never go back; SQLite transactions, JDBC
rows and `os.replace` are atomic and durable; reads of a clock inside one SQL statement agree; paths that differ as
texts name different files. A restart of the owner's host loses a JDBC write that has not landed, which keeping every
receipt depends on: a stale accepted ledger that landed after the next request's would evict that request's receipt. Item updates need no
such assumption, since any writer may change the item at any moment. A reset or a crash may happen between any two steps.

Four properties hold under a condition that is part of the result, each with a lemma at an input where it fails:

- A capacity refusal names the exact second of admission if and only if the wait was not cut to one day
  (`GatewayStore.RetryHintIsExact`, `GatewayStore.ClampedHintIsRefusedAgain`); the server's configuration keeps it below.
- A completed receipt is certified if and only if a row that holds it was committed within ten seconds of its
  completion (`OwnerReader.FaithfulReadCertifies`, `OwnerReader.LateRowIsAmbiguous`); otherwise the answer is ambiguous.
- A durably completed feeding can still be debited without the owner or an operator if and only if a confirmation is
  on its way or the owner's current item shows the completion (`FeedProgress.DebitableExactly`). A restart that does not
  restore the item strands it (`FeedWitness.UnrestoredItemStrands`) until the item is restored or an operator decides.
- A file replacement overwrites only recorded versions if and only if no other writer leaves an unrecorded one between
  the last fingerprint check and the rename (`FileTransaction.DriftIsOverwrittenOnlyUnchecked`,
  `FileTransaction.UncheckedWriteIsLost`).

## Model

| member | source | states |
|---|---|---|
| FeedSafety.AtMostOnce | deploy/openhab/feeder-owner-v2.js:287-387 | over every interleaving with lost, late and repeated messages, crashes, foreign clients and operators, an identity is commanded at most once and pulsed at most once, and only commanded identities are pulsed |
| FeedSafety.DebitsAreDurable | src/feeder/mod.rs:110-156 | without operators, every debit has a durable completion of the owner and a pulse for the same identity |
| FeedSafety.ReleasedIsNeverCommanded | src/ledger/feed.rs:170-194 | once the daemon releases an attempt as not dispatched, no command or pulse for it exists, and none appears in any continuation |
| FeedSafety.PulsesAreConserved | src/feeder/mod.rs:40-156 | without operators and foreign clients, pulsed identities are the debited ones plus at most the one unresolved attempt, and the counts differ by at most one |
| FeedProgress.DebitableExactly | src/feeder/mod.rs:50-156 | in every reachable state the parties alone can still debit the unresolved attempt if and only if a confirmation is on the wire, its row is acknowledged or about to be, or the owner's current item parses and shows the durable completion, landed in time; if not, nothing short of a step of the owner or an operator's verdict debits it, crashes and strangers included |
| FeedRelease.ReleasableExactly | src/gateway/store.rs:96-150 | in every reachable state the parties alone can still release the unresolved attempt if and only if the gateway refused it, or has no row for it, valid limits, and its request can still arrive; if not, no continuation without an operator's verdict or a stranger using the identity releases it |
| FeedWitness.FeedingIsDebitable | src/feeder/mod.rs:50-108 | a concrete run from the first payment to the durable completion ends in a state where the attempt waits and is debitable |
| FeedWitness.UnrestoredItemStrands | src/openhab.rs:267-269 | the same run followed by a restart that restores no item is durably complete, and no ordinary continuation debits or releases it |
| FeedSafety.AnswersAreRead | src/gateway/client.rs:188-208 | the daemon reads every status the gateway ever sends for the asked identity as it was meant, refusals included, and rejects every other answer |
| FeedProtocol.ApplyIsLedgerStep | src/feeder/mod.rs:40-156 | every action of the composed system is at most one ledger transaction, so ledger invariants carry over |
| FeedProtocol.ApplyKeepsDispatch | src/gateway/server.rs:223-257 | each identity gets at most one pending command and none without a stored row, across concurrent handlers |
| FeedProtocol.ApplyKeepsCertified | src/gateway/server.rs:302-349 | every confirmation on the wire or in the store goes back to a durable completion, every refusal to a tombstone |
| FeedProtocol.ApplyOnlyLearns | src/gateway/store.rs:96-152 | tombstones and durable completions are never forgotten by any action |
| FeedSteps.WorkerMovesExactly | src/feeder/mod.rs:40-108 | which action moves the daemon's worker, from where and to where, and that no other does |
| FeedSteps.RequestsGrowExactly | src/feeder/mod.rs:87-108 | the wire gains exactly the posted identities and the delivered commands, dated by the clock, and loses nothing |
| FeedSteps.RepliesGrowExactly | src/gateway/server.rs:204-376 | a handler that ends by its own stages leaves exactly one reply, an abandoned one 504 or none, and nothing else replies |
| FeedSteps.HandlersMoveExactly | src/gateway/server.rs:204-376 | only a POST on the wire starts a submission, a restart ends every handler, and no action touches the handler of another request |
| GatewayStore.Store.BeginRequest | src/gateway/store.rs:72-158 | a known identity is answered from its row or tombstone without any change; a new one is refused, leaving only a tombstone, for safety, then a pending row, then the delay, and otherwise gets one pending row and one event |
| GatewayDecisions.KnownIsAnswered | src/gateway/store.rs:85-101 | a pending, acknowledged or refused identity is answered as such and nothing changes |
| GatewayDecisions.FreshIsDecided | src/gateway/store.rs:102-150 | a new identity is refused five seconds for unsafe switches, then five for an open request, then for its wait up to a day, each leaving only its tombstone, and otherwise gets its pending row and event |
| GatewayDecisions.DelayIsWait | src/gateway/store.rs:109-111 | the computed delay is the interval after the last row or the time until the oldest of the last cap rows leaves the hour, whichever is longer |
| GatewayStore.Store.MarkAcknowledged | src/gateway/store.rs:160-185 | a pending row becomes acknowledged once, with one event and the current time; a repeated call succeeds and changes nothing, an unknown identity fails |
| GatewayDecisions.AcknowledgeIsExact | src/gateway/store.rs:160-185 | exactly a pending row is acknowledged, now, with one event; a settled one stays and an unknown one fails |
| GatewayStore.AdmissionsAreBounded | src/gateway/store.rs:104-147 | on every run no hour holds more than the cap, successive admissions keep the minimum interval, and at most one row is pending |
| GatewayStore.WindowWithinCap | src/gateway/store.rs:160-176 | although acknowledging moves the row's time forward, the hour window never holds more than the cap |
| GatewayStore.DelayCountsDown | src/gateway/store.rs:109-129 | the computed delay falls by one each second and never restarts |
| GatewayStore.RetryHintIsExact | src/gateway/store.rs:109-150 | whatever calls arrive before the hinted second, no row is admitted and a fresh identity is refused with exactly the wait that is left; at that second one is admitted if and only if the wait was not cut to a day |
| GatewayStore.CallsAreRefused | src/gateway/store.rs:96-152 | while a capacity delay runs, no sequence of calls changes the request table |
| GatewayStore.ClampedHintIsRefusedAgain | src/gateway/store.rs:126-147 | under an interval of more than a day, a fresh identity at the hinted second of a reachable refusal is refused again |
| GatewayStore.RunKeepsInv | src/gateway/store.rs:96-176 | no identity has both a row and a tombstone, pacing holds and the event table mirrors the request table on every run |
| GatewayServer.WaitForAck | src/gateway/server.rs:320-349 | the polling loop acknowledges exactly when some poll before the deadline reports completion, and otherwise answers ambiguous |
| GatewayDecisions.LookupIsExact | src/gateway/server.rs:223-300 | what a stored status answers, and when a submission goes on to the safety switches |
| GatewayDecisions.AdmissionIsExact | src/gateway/server.rs:230-250 | only a new row leads to a command; every other outcome of admission has its own answer |
| GatewayDecisions.OwnerReadIsExact | src/gateway/server.rs:302-349 | what each reading of the owner's result answers, on recovery and while waiting |
| GatewayDecisions.BelievedIsExact | src/gateway/client.rs:54-75 | which responses the client believes: code, identity, refusal with its wait, and code and status in agreement |
| FeedLedger.Store.MarkInterruptedIntentsUnknown | src/ledger/feed.rs:22-47 | a restart turns the one committed intent unknown with one public event, debits nothing, and leaves every other attempt |
| FeedLedger.Store.BeginFeedAttempt | src/ledger/feed.rs:49-96 | fails while an attempt is unresolved, waits during cooldown or below the threshold, and otherwise commits exactly one intent before anything is sent |
| LedgerDecisions.BeginIsExact | src/ledger/feed.rs:49-96 | an intent is committed if and only if the threshold is storable, no attempt is open, the cooldown is over, the credit covers it and the identity is new; it waits only for the cooldown or the credit |
| LedgerDecisions.RefusalIsWaitedOut | src/ledger/feed.rs:56-66 | over every run, after a refusal no intent is committed before its wait is over |
| FeedLedger.Store.MarkFeedUnknown | src/ledger/feed.rs:102-131 | only a committed intent can turn unknown; the ledger entries stay |
| FeedLedger.Store.Resolve | src/ledger/feed.rs:226-289 | an attempt in the expected state is confirmed and debited by its own threshold once, with the new balance announced |
| FeedLedger.Store.ReconcileUnknownAsNotFed | src/ledger/feed.rs:137-168 | an unknown attempt is closed without a debit and the unchanged balance is announced |
| FeedLedger.Store.ResolveFeedNotDispatched | src/ledger/feed.rs:170-194 | an unresolved attempt is released without a debit and the cooldown is extended, never shortened |
| LedgerDecisions.ReleaseIsExact | src/ledger/feed.rs:170-194 | exactly an open attempt is released, for one second to a day, and the later of two cooldowns counts |
| FeedLedger.FedResult | src/ledger/feed.rs:226-289 | in reachable states resolving as fed never meets an invariant-violation branch: it succeeds exactly when the attempt is in the expected state |
| LedgerDecisions.FedIsExact | src/ledger/feed.rs:226-289 | exactly the attempt in the expected state is confirmed and debited its own threshold, with the new balance announced |
| LedgerDecisions.DebitIsGuarded | src/ledger/feed.rs:226-289 | on any tables, reachable or not, a debit needs its state, a readable balance that covers it and an unused key, and a failed one changes nothing |
| FeedLedger.RunKeepsInv | src/ledger/feed.rs:22-301 | at most one attempt is unresolved and covered by credit, exactly the confirmed attempts are debited once, sums stay in range |
| FeedLedger.FoldIsBalance | src/ledger/events.rs:88-136 | a snapshot at any sequence number agrees with adding up the announced changes to that point |
| FeedLedger.LogDeterminesBalance | src/ledger/events.rs:141-153 | the ledger sum is the balance of the last balance-carrying event, equals the folded log, and each such event announces exactly its change |
| FeedRuntime.Runtime.BeginNextFeed | src/domain/feed.rs:105-122 | override, an active attempt and missing credit block a feed, in that order; otherwise one attempt becomes active and credit stays |
| FeedRuntime.Runtime.Settle | src/domain/feed.rs:124-145 | only the active attempt in the expected state is settled, and it costs one threshold |
| LedgerDecisions.WrongAttemptIsNamed | src/domain/feed.rs:151-167 | settling, marking or closing anything but the active attempt in the expected state fails by name and changes nothing |
| LedgerDecisions.RightAttemptIsSettled | src/domain/feed.rs:124-149 | the active attempt in the expected state is settled for one threshold, marked, or closed for nothing |
| FeedRuntime.StepRefines | src/ledger/feed.rs:49-289 | each stored transaction is zero, one or two steps of the abstract machine, none of which fails |
| FeedRuntime.NotDispatchedRefines | src/ledger/feed.rs:170-194 | releasing a committed intent is mark-unknown followed by reconcile-not-fed |
| FeedRuntime.RunRefines | src/domain/feed.rs:101-167 | every run of the stored tables at one threshold maps to a run of the abstract machine with the same credit and attempt |
| FeedWorker.RunFeedStep | src/feeder/mod.rs:40-108 | one worker step: its ledger effect, the identity it posts if any, and the remaining credit it reports |
| FeedWorker.BookOutcome | src/feeder/mod.rs:110-156 | which ledger transaction books a gateway outcome; contradictory outcomes change nothing |
| FeedWorker.PostsOnce | src/feeder/mod.rs:50-108 | over any life of the worker, restarts included, each identity is posted at most once |
| FeedWorker.PostsExactly | src/feeder/mod.rs:40-93 | an identity is posted if and only if the threshold is positive and covered, no attempt is open, the feeder is enabled, the override is off and the remote switch on, the cooldown is over and the identity is new |
| FeedWorker.BlockedAnswersAreExact | src/feeder/mod.rs:61-93 | each blocked answer has its own condition, names the feeds due, and leaves the ledger unchanged |
| FeedWorker.OpenAttemptIsPolled | src/feeder/mod.rs:50-60 | an open attempt is polled and nothing is posted; an unanswered poll changes nothing |
| FeedWorker.PostIsBooked | src/feeder/mod.rs:91-108 | the intent is committed before the post, and an unanswered post leaves it unknown |
| FeedWorker.BookedIsExact | src/feeder/mod.rs:110-156 | a confirmation debits and answers the remaining credit, a refusal releases and keeps its wait, anything else leaves the attempt unknown |
| FeedWorker.EveryPostWasAllowed | src/feeder/mod.rs:40-93 | over any life of the worker every posted identity comes from a step whose switches, cooldown, credit and open attempts allowed it |
| FeederOwner.Script.RunFeederOwner | deploy/openhab/feeder-owner-v2.js:278-342 | the guard, restored state, replay, uncertainty, staleness, capacity and cooldown decide in this order; only an admitted request takes the guard and asks for a receipt |
| FeederOwner.Script.Actuate | deploy/openhab/feeder-owner-v2.js:357-362 | ON is sent once, unless the clock went back, and recorded as the start |
| FeederOwner.Script.TimerCallback | deploy/openhab/feeder-owner-v2.js:363-387 | only the timer of the current owner may complete the receipt |
| FeederOwner.AcceptExtends | deploy/openhab/feeder-owner-v2.js:231-243 | accepting a new identity evicts nothing and adds exactly one unfinished receipt |
| FeederOwner.CompleteExtends | deploy/openhab/feeder-owner-v2.js:244-253 | completing changes only the pulsed receipt, which becomes final |
| FeederOwner.LastStartBounds | deploy/openhab/feeder-owner-v2.js:315-322 | the cooldown is measured from no earlier than every retained completion, cache or no cache |
| OwnerRequests.AdmissionIsExact | deploy/openhab/feeder-owner-v2.js:287-342 | a request is admitted if and only if the guard is free, the item is sound and equals the newest row, the identity is new, every receipt is complete, the request is at most 120 seconds old and 30 ahead, fewer than 32 receipts are kept, five seconds have passed since every completion and the cached start, and the text fits |
| OwnerRequests.RefusalsAreExact | deploy/openhab/feeder-owner-v2.js:287-328 | every refusal names the first condition that fails, a stale request included, and a known identity is answered with its own receipt |
| OwnerRequests.LateRefusalsAreExact | deploy/openhab/feeder-owner-v2.js:313-342 | a fresh new request on a finished ledger is refused only for room or the cooldown |
| OwnerRequests.RefusedIsIdle | deploy/openhab/feeder-owner-v2.js:324-328 | a refused request leaves item, rows, guard, cache, pending writes and pulses alone |
| OwnerRequests.AdmittedAsksForReceipt | deploy/openhab/feeder-owner-v2.js:231-243 | an admitted request takes the guard and asks for its receipt, dated now, in front of all others |
| OwnerRequests.SwitchOnIsExact | deploy/openhab/feeder-owner-v2.js:349-362 | ON is sent if and only if the receipt is armed and the clock has not gone back, once and recorded as now |
| OwnerRequests.TimerIsExact | deploy/openhab/feeder-owner-v2.js:363-387 | the receipt is completed if and only if the timer owns the guard, a second has passed and the counter agrees; a counter that disagrees holds the owner |
| OwnerRequests.CompletionIsExact | deploy/openhab/feeder-owner-v2.js:244-253 | completing rewrites its own receipt and no other |
| OwnerRequests.PersistReadBackIsExact | deploy/openhab/feeder-owner-v2.js:207-229 | the pulse is armed, or the guard released, exactly when item and newest row both show what was written |
| OwnerRequests.FeedingIsExact | deploy/openhab/feeder-owner-v2.js:330-387 | left alone, an admitted request pulses once and ends with its receipt complete in item and newest row, in front of the receipts that were there, with the guard free |
| OwnerRequests.RestartForgets | deploy/openhab/feeder-owner-v2.js:364-369 | on every run, after a restart no timer, read-back or late write of an earlier run changes anything until the next request or foreign update |
| OwnerRequests.PulsesAreAsked | deploy/openhab/feeder-owner-v2.js:287-362 | over every run each pulse goes back to a request received at most 120 seconds after it was made |
| FeederOwner.ActuationIsSafe | deploy/openhab/feeder-owner-v2.js:299-387 | over every run with restarts: no identity pulsed twice, ON commands at least the cooldown plus the pulse apart, receipts never lost or reopened, at most 32 of them |
| FeederOwner.RunKeepsTempo | deploy/openhab/feeder-owner-v2.js:189-229 | on every run, of any three consecutive rows of the ledger history the last is at least a pulse later than the first |
| OwnerReader.ScanPage | src/openhab.rs:327-353 | the row loop accepts a page exactly when the rows so far are ordered, agree with the receipt and never lose a completion |
| OwnerReader.ReadHistory | src/openhab.rs:292-363 | the page loop returns the outcome of the collected history |
| OwnerReader.FeederResult | src/openhab.rs:267-363 | the whole read: located receipt first, notification only without one, history only for a terminal one |
| ReaderDecisions.ParsedIsExact | src/openhab.rs:427-470 | a ledger is accepted if and only if it has at most 32 distinct receipts, each accepted or complete, with times from 2000 to half a minute ahead and in order |
| ReaderDecisions.NotificationIsExact | src/openhab.rs:472-508 | what each notification answers, and that it says nothing about another request |
| ReaderDecisions.LocatedIsExact | src/openhab.rs:267-288 | the notification speaks only without a receipt, an accepted receipt is pending, and a terminal one is looked up in the history |
| ReaderDecisions.PagedIsExact | src/openhab.rs:292-363 | on any pages: read to the first short of at most eight; complete if and only if all rows are consistent within ten seconds, in order and never lose the completion, and one shows it |
| OwnerReader.CompleteIsDurable | src/openhab.rs:267-363 | whatever item and notification claim, completion is answered only for a durably completed receipt |
| OwnerReader.OwnHistoryIsClean | src/openhab.rs:327-353 | over the owner's own history no conflict, regression or eviction branch can be taken |
| OwnerReader.FaithfulReadCertifies | src/openhab.rs:267-363 | for every run of the owner, reading its newest ledger and paged history answers complete if and only if a completed row landed within ten seconds, else ambiguous; no failure, the pagination limit included, is possible |
| OwnerReader.ReadIsExact | src/openhab.rs:267-363 | whatever the item shows, a read of the owner's own paged history answers complete if and only if the item parses, shows exactly the durable completion, and that completion landed within ten seconds |
| OwnerReader.WindowIsShort | src/openhab.rs:290-363 | by the owner's own pace at most 42 of its rows fall into the twenty seconds of a read, so eight pages of eight always end |
| OwnerReader.LateRowIsAmbiguous | src/openhab.rs:354-360 | a concrete run whose completion row lands eleven seconds late is durably complete and answered ambiguous |
| CreditTerms.CumulativeIsFloor | src/domain/credit.rs:115-127 | credit is the exact floor; it fails only for the wrong asset or unstorable credit, never by overflow of the product |
| CreditTerms.AssessFromConsistent | src/domain/credit.rs:132-154 | from consistent saved credit an assessment succeeds exactly when the new total can be stored |
| CreditTerms.AssessmentIsExact | src/domain/credit.rs:132-154 | on any inputs an assessment succeeds if and only if the assets agree, the saved credit is the floor of the previous amount, the amount does not shrink and the new floor can be stored |
| CreditTerms.DeltasTelescope | src/domain/credit.rs:132-154 | splitting an amount into receipts in any way grants the same total credit |
| CreditTerms.ExpectedGrantsTarget | src/domain/credit.rs:115-127 | paying the expected amount grants exactly the target |
| CreditTerms.QuoteIsLeast | src/domain/credit.rs:217-254 | a quote asks for the least amount that buys the target at the rate |
| CreditTerms.QuoteExistsExactlyWhenAffordable | src/domain/credit.rs:217-254 | a quote is made if and only if the policy times hold and some storable amount buys the target; overflow refuses nothing else |
| CreditTerms.QuoteIsExact | src/domain/credit.rs:217-254 | the same with every number written out, and the quote carries the times and the rate it was made from |
| CreditTerms.QuoteIsFair | src/domain/credit.rs:115-127 | no amount is overvalued against the rate, and up to the quoted amount the shortfall is below one satoshi plus one rounding step |
| CreditLedger.Store.Record | src/ledger/mod.rs:65-218 | a known source identity is accepted only unchanged and verified, a used hash is refused, and a new settlement adds its receipt, grant, entry, event and allocation together |
| CreditOutcomes.ReplayIsExact | src/ledger/mod.rs:93-128 | a settled identity is accepted if and only if hash, owner, pool, amount and time are the same, and nothing changes |
| CreditOutcomes.SettlementIsExact | src/ledger/mod.rs:129-217 | a new payment fails for a used hash or a full ledger and otherwise adds exactly its settlement, receipt, grant, entry, event, valuation and allocation |
| CreditLedger.Store.Register | src/ledger/credit.rs:507-560 | an intent is stored once with empty credit; the same intent again changes nothing, different terms or a used receive binding fail |
| CreditOutcomes.RegistrationIsExact | src/ledger/credit.rs:507-560 | an intent is stored if and only if it is in XMR, its limit covers its target and no valuation uses its binding; a stored one is accepted only unchanged |
| CreditLedger.Store.HoldForProvider | src/ledger/credit.rs:386-397 | the first hold reason stays and credit already granted is not reduced |
| CreditLedger.Store.RecordXmrReceipt | src/ledger/credit.rs:210-384 | a contradicting observation only holds; otherwise the row is stored, and a timely unlocked one not granted before gets its increment or, past a limit, a hold |
| CreditOutcomes.ContradictionIsHeld | src/ledger/credit.rs:247-265 | a stored receipt seen with another amount or time, or locked again, or spent twice, is always held for the first of these reasons, with the evidence recorded and nothing else changed |
| CreditOutcomes.NewDoubleSpendIsHeld | src/ledger/credit.rs:269-288 | a new receipt spent twice is stored as ineligible and held |
| CreditOutcomes.UngrantableIsStored | src/ledger/credit.rs:266-301 | a receipt of a held intent or one that came late is stored as held, a locked one as pending, and nothing else changes |
| CreditOutcomes.MismatchIsHeld | src/ledger/credit.rs:305-322 | on any books, watermarks that are not the sums of the grants and their floor hold the intent |
| CreditOutcomes.GrantedIsDuplicate | src/ledger/credit.rs:323-331 | a receipt is a duplicate exactly when it was granted before, and adds nothing |
| CreditOutcomes.UnaffordableIsHeld | src/ledger/credit.rs:332-359 | a receipt past the storage range, its intent's limit or the balance is stored and held for the limit |
| CreditOutcomes.AffordableIsGranted | src/ledger/credit.rs:332-384 | any other receipt is granted the floor of the new total less what was credited, once, with one entry under its own key |
| CreditInvariants.WatermarksNeverDisagree | src/ledger/credit.rs:294-311 | the stored watermarks always agree with the grant history, so the mismatch hold is unreachable |
| CreditInvariants.ReceiptResult | src/ledger/credit.rs:261-384 | a receipt that contradicts nothing never fails: held, pending, duplicate, or granted exactly its increment when it fits every limit |
| CreditInvariants.SettlementAccepted | src/ledger/mod.rs:110-211 | the rows of a new settlement never collide, so only a full ledger refuses it |
| CreditInvariants.SettleKeepsInv | src/ledger/credit.rs:435-504 | recording a payment keeps watermarks, traces, uniqueness and the provenance of every settlement |
| CreditInvariants.ReceiptKeepsInv | src/ledger/credit.rs:210-384 | recording a receipt keeps them too |
| CreditRuns.CreditIsConserved | src/ledger/credit.rs:294-384 | on every run each watermark is the sum of its granted receipts, each credit the sum of its grants and their floor value within the limit, and the balance all grants minus confirmed thresholds |
| CreditRuns.PaymentOutcome | src/ledger/mod.rs:110-217 | the exact outcome of a payment: a replay always verifies, a new one is refused only for a used hash or a full ledger, and the books change exactly when one is credited |
| CreditRuns.PaymentsAreUnique | src/ledger/mod.rs:93-217 | no source identity and no payment hash is credited twice, and each settlement has its one ledger entry |
| CreditRuns.ValuationsAreImmutable | src/ledger/credit.rs:507-560 | no later transaction changes the terms of a valuation |
| CreditRuns.IntentReadsBack | src/ledger/credit.rs:162-205 | a registered intent is read back unchanged, quote included, after anything else happened |
| CreditRuns.HoldsArePermanent | src/ledger/credit.rs:419-431 | once held an intent gains nothing more and its first reason never changes |
| CreditRuns.OrderDoesNotMatter | src/ledger/credit.rs:241-340 | every order, repetition and pending-then-unlocked interleaving of conflict-free transfers, among any other transactions, ends unheld with the floor value of the timely ones that unlocked; late ones change nothing |
| StrikeInbox.Inbox.EnqueueStrikeWork | src/ledger/inbox.rs:19-49 | a repeated notification changes nothing, a changed one under the same key and a new row beyond 10,000 pending ones fail, a new one is due at once |
| StrikeInbox.Inbox.RetryStrikeWork | src/ledger/inbox.rs:78-86 | an open row moves at least a second into the future, and from the eighth failure on an hour, in quarantine; a finished one stays |
| StrikeDecisions.EnqueueIsExact | src/ledger/inbox.rs:19-49 | a known key is accepted only for the same receive, and a new one exactly while fewer than 10,000 rows are pending |
| StrikeDecisions.RetryIsExact | src/ledger/inbox.rs:78-86 | the new state, attempt count and next try of a failed row, in seconds |
| StrikeDecisions.SelectionIsExact | src/ledger/inbox.rs:51-66 | the selected row is open and due and no other such row is earlier by next try, arrival and key |
| StrikeInbox.Inbox.Drain | src/strike.rs:433-443 | one step works the first due row only: success finishes it, failure postpones it |
| StrikeInbox.DueWork | src/ledger/inbox.rs:51-66 | the selected row is due and no due row precedes it; none is selected only when none is due |
| StrikeInbox.DelayBounds | src/ledger/inbox.rs:115-117 | retries are 1 to 256 seconds away; the cap of 300 is never reached |
| StrikeInbox.RunKeepsInv | src/ledger/inbox.rs:19-86 | the pending capacity holds, quarantine ends only in success, and no row waits longer than an hour for its next try |
| StrikeInbox.NobodyStarves | src/ledger/inbox.rs:51-86 | an overdue row is worked before one more step than there were rows ahead of it, whatever arrives or fails |
| StrikeScan.Recovery.ScanStep | src/strike.rs:443-495 | one step scans the first due request: a page moves the offset or starts over, a provider failure keeps it and backs off, and a refused receive leaves the scan where it was |
| StrikeDecisions.ScanIsExact | src/strike.rs:449-491 | where and when the next scan continues after a page or a failure, in offsets and seconds |
| StrikeScan.Recovery.EnqueuePage | src/strike.rs:455-469 | the loop enqueues the completed receives of the page in order and stops at the first refusal |
| StrikeScan.NoRequestStarves | src/ledger/inbox.rs:88-113 | an overdue request is scanned before one more scan is booked than there were requests ahead of it, whatever is issued, fails or is worked |
| StrikeScan.RefusedPageIsTriedAgain | src/strike.rs:455-469 | a page the inbox refuses leaves every scan row as it was, and its request stays first in the order whatever the time |
| StrikeScan.EveryReceiveIsEnqueued | src/strike.rs:443-480 | over a stable provider list, one cycle of completed scans from any offset, interleaved with anything, puts every completed receive of the first 1,000,100 into the inbox with no notification at all |
| StrikeScan.OnlyListedIsEnqueued | src/strike.rs:450-470 | the scan enqueues nothing else: each of its rows stands for a listed completed receive below that bound |
| StrikeDecisions.IssueIsScheduled | src/ledger/inbox.rs:88-91 | a new request joins the scan, due at once at offset 0, and a known one changes nothing |
| StrikeDecisions.WorkingRunsInbox | src/strike.rs:433-443 | between scans the inbox runs as it does without them |
| StrikeCredit.EachReceiveIsCreditedOnce | src/strike.rs:433-495 | over webhooks, recovery pages, retries and crashes the source's credit is the sum over distinct reconciled receives, and finished work is credited |
| StrikeCredit.ReconciledWorkIsCredited | src/strike.rs:567-607 | working a reconciled acceptable receive credits it, crash or not, and otherwise finishes its row |
| StrikeCredit.RecoveryIsExact | src/strike.rs:433-443 | one recovery step offers the due receive's payment to the books and nothing else; the row is done if and only if that succeeded before any crash, and is postponed if it failed |
| Admission.Store.ReserveInvoice | src/ledger/admission.rs:7-36 | only dead rows are pruned; a reservation is made exactly when the minute, active and daily counts of what is kept allow it |
| Admission.AdmissionIsExact | src/ledger/admission.rs:10-27 | an invoice is admitted if and only if fewer than 30 were started in the last minute, fewer than 4 are active, and these with the issues of the last day are fewer than 10,000 |
| Admission.PruningIsExact | src/ledger/admission.rs:9 | exactly the rows older than a minute that are finished or expired are pruned |
| Admission.Store.FinishInvoiceAdmission | src/ledger/admission.rs:38-44 | releasing marks only its own row |
| Admission.OperationIsExact | src/ledger/admission.rs:27-44 | in a run an admitted reservation stands for 30 seconds, a release ends its own, and an issue counts from its first time |
| Admission.PruningIsInvisible | src/ledger/admission.rs:7-36 | the pruned table decides every run exactly as the table that keeps everything |
| Admission.IssuanceIsBounded | src/ledger/admission.rs:10-27 | never more than 4 active, 30 started in any minute and, with issues inside live reservations, 10,000 issued in any day |
| Overlay.WindowIsContiguous | src/ledger/overlay.rs:35-68 | a window whose row count equals its width holds exactly its numbers in order |
| Overlay.WindowExactlyWhenComplete | src/ledger/overlay.rs:35-68 | a window is served if and only if its range is acceptable, no number is missing and it is small enough |
| Overlay.RenderWindow | src/overlay.rs:124-152 | the rendering loop: one queue entry per event with its number, within both size bounds, or nothing |
| Overlay.Connection.Serve | src/overlay.rs:173-202 | an unsupported request is refused; a replay is queued before its checkpoint only for the same stream, a complete window and within the size bounds, and otherwise a snapshot, marked as a reset if a resume was asked |
| Overlay.Connection.Send | src/overlay.rs:238-242 | the head of the queue is sent, as a skipped notice if its weather went stale, and the cursor takes its number |
| Overlay.Connection.Tick | src/overlay.rs:243-253 | nothing is queued while the log stands at the cursor; else the next window of at most 100 events, or a reset snapshot if it is not available |
| OverlayDelivery.TickIsExact | src/overlay.rs:243-253 | if every number up to 100 ahead is in the log read and all fits, the tick queues exactly those events in order, each shown or its stale-weather notice; a reset checkpoint is queued if and only if this fails |
| OverlayDelivery.ConnectIsExact | src/overlay.rs:173-202 | a resume gets the missed events and then the checkpoint if and only if its stream matches and they fit together, and a reset checkpoint otherwise |
| OverlayDelivery.RenderIsExact | src/overlay.rs:124-152 | a window renders if and only if every event does within 16 KiB and all within 512 KiB, and each entry carries its event or notice |
| OverlayDelivery.SendIsExact | src/overlay.rs:84-122 | the head is sent, replaced by a notice exactly if its weather is over 300 seconds old or over 30 ahead |
| OverlayDelivery.EveryEventArrives | src/overlay.rs:173-253 | over a log that loses nothing and renders, a client is never reset and gets one frame for every number in order |
| Overlay.PollKeepsInv | src/overlay.rs:243-253 | a poll that finds the log elsewhere always queues something, and what it queues continues from the cursor |
| Overlay.StreamIsGapFree | src/overlay.rs:173-253 | under concurrent appends and removals events are consecutive between resets, a closing checkpoint leaves the cursor, shown events are the log's and never stale weather |
| Overlay.NothingSkippedOrRepeated | src/overlay.rs:173-253 | between frames with no reset the cursor advances by exactly the events delivered |
| Rationals.Gcd | src/quotes/oracle.rs:126-131 | the loop returns the greatest common divisor |
| Rationals.ReduceIsExact | src/quotes/oracle.rs:119-131 | reduction keeps the value and leaves no common factor |
| Rationals.LowestTermsAreUnique | src/quotes/oracle.rs:119-134 | equal values in lowest terms are the same pair, and only those |
| Rationals.CmpIsTheOrderOfValues | src/quotes/oracle.rs:132-134 | cross multiplication fits 128 bits and is the order of the rational values |
| Decimals.DecimalIsExact | src/quotes/oracle.rs:94-125 | the parser accepts exactly the bounded decimal texts whose reduced numerator fits, with their exact value in lowest terms; 38 digits never overflow |
| Decimals.SpellingsAgree | src/quotes/oracle.rs:94-134 | two accepted spellings parse to the same pair if and only if they have the same value, and compare as their values |
| Decimals.PrintedXmrParses | src/quotes.rs:289-300 | a printed amount parses back to atomic units over 10^12, reduced, for every u64 |
| Decimals.TrimDropsEnds | src/strike.rs:857-858 | trimming drops the whitespace at both ends, all of it and nothing else |
| Decimals.BtcAmountIsExact | src/strike.rs:857-888 | an amount text is accepted if and only if it is an unsigned number with at most eleven decimals within u64, and the result over 10^11 equals the written number |
| Decimals.BtcAmountRoundTrips | src/strike.rs:850-888 | every millisatoshi amount survives its decimal text |
| Oracle.SatsRateIsExact | src/quotes/oracle.rs:136-149 | there is a rate exactly for a positive price that fits and was seen at no negative time, and it is the printed price times 10^8 in lowest terms |
| Oracle.CheckChronology | src/quotes/oracle.rs:166-176 | the loop accepts exactly the strictly increasing whole minutes not after the fetch |
| Oracle.NewestRate | src/quotes/oracle.rs:177-205 | the newest traded finished row alone decides: its rate if it is usable, nothing otherwise |
| Oracle.ParseOhlc | src/quotes/oracle.rs:151-206 | exactly for an ordered response without reported errors the newest traded finished row decides; every other response yields no rate |
| Oracle.UsableIsExact | src/quotes/oracle.rs:177-205 | a candle makes the rate if and only if it was traded, a minute has passed since it began, its prices agree as numbers and the average gives a storable rate |
| Oracle.RateWithinCandle | src/quotes/oracle.rs:178-204 | the rate lies between the lowest and highest traded price and is at least a minute old |
| Oracle.ValidRateIsExact | src/quotes.rs:280-288 | the configured bounds accept exactly the rates between them, without overflow |
| FileTransaction.Host.Prepare | deploy/scripts/inactive_file_transaction.py:63-91 | it returns, manifest and lock written, if and only if the directory was absent, the destinations are distinct, absolute and at their expected versions, the process survives every step and each row's source and expected version are there at its own step; whatever other writers do meanwhile, no destination is touched, each row records what its destination held when copied, an existing directory is refused and an interrupted preparation cannot be executed |
| FileTransaction.PreparedIsAtOld | deploy/scripts/inactive_file_transaction.py:63-91 | without other writers a finished preparation leaves every destination at its recorded old version |
| FileTransaction.PreparedRunCompletes | deploy/scripts/inactive_file_transaction.py:63-145 | what a quiet preparation returned can be applied or rolled back to exactly the new or the expected versions, after any interruptions |
| FileTransaction.Host.Execute | deploy/scripts/inactive_file_transaction.py:104-145 | files, result and every rename with the version it replaced, under interruptions and other writers at every moment, the one before the rename included |
| FileTransaction.InterruptedRunsKeepVersions | deploy/scripts/inactive_file_transaction.py:104-145 | after any interrupted runs in either direction each destination is exactly old or new and nothing else changed |
| FileTransaction.RollbackRestoresEverything | deploy/scripts/inactive_file_transaction.py:104-145 | a rollback that returns restores the file system exactly, after any partial runs |
| FileTransaction.UninterruptedRunCompletes | deploy/scripts/inactive_file_transaction.py:119-145 | left alone, a prepared transaction completes in the requested direction after any interruptions |
| FileTransaction.DriftIsOverwrittenOnlyUnchecked | deploy/scripts/inactive_file_transaction.py:110-145 | only recorded versions are replaced if and only if no writer leaves an unrecorded one between a check and its rename; a returned run left all at the requested version, and drift at the start changes nothing |
| FileTransaction.UncheckedWriteIsLost | deploy/scripts/inactive_file_transaction.py:133-136 | a foreign version written right before the rename is lost and the run still returns |

## Left out

- HTTP, TLS, WebSocket control frames, heartbeats, input limits and timeouts: only loss, delay, repetition and abandonment of messages and handlers remain.
- SQLite, JDBC and OpenHAB internals: transactions are atomic and durable, persisted rows are what was committed. SQL arithmetic that leaves the 64-bit range is modelled only for the ledger sum.
- JSON, RFC 3339, UUID and invoice text, HMAC, digests and signatures: records, integer times, opaque identities and `formatted` flags stand for them. Source names hold no colon, so a payment key is its pair of source and identity.
- Byte budgets of the owner's ledger text are one flag of a request; the bounded readback loops of `writeLedger` are the steps that land and read back the item and the row, or give up.
- FeederOwner.Script.Actuate: does not model the OFF commands or the counter item, because no safety property depends on them; a counter that fails its check holds the owner.
- FeederOwner.ActuationIsSafe: a restart always ends the running script, so a reload that clears the cache while an earlier invocation still runs is not covered; the item readback and the request to persist it are one step.
- StrikeScan.NoRequestStarves: counts booked scans; it says nothing while the inbox refuses a page, since that page is then asked for again before every other request (`StrikeScan.RefusedPageIsTriedAgain`).
- OwnerReader.FeederResult: takes one clock reading for the whole read, while the code reads the clock again for some rows; the first version of the owner contract and the canary fixtures are not modelled.
- FeedSafety.PulsesAreConserved: excludes operator reconciliation and foreign clients, which the property itself excludes; the other results allow foreign clients, and AtMostOnce allows both.
- StrikeCredit.EachReceiveIsCreditedOnce: assumes the provider reconciles one receive to one payment whenever it answers; the provider's own validation rules are not modelled, and a scanned page is a series of notifications, as `StrikeScan` shows it to be.
- Admission.IssuanceIsBounded: the daily bound takes each issue inside its live 30-second reservation as given; the 20-second deadline that makes it so is a timeout.
- CreditRuns.OrderDoesNotMatter: asks that the balance leave room for what the plan still lacks at every moment, because another intent's credit may otherwise fill the ledger first; every observation of the intent reports a transfer of the plan.
- Decimals.BtcAmountIsExact: lists the whitespace that trimming removes by code point; amounts in other currencies and conversion evidence are not modelled.
- Oracle.ParseOhlc: takes a decoded response; transport checks and evidence storage are not modelled.
- FileTransaction.Host.Prepare: source files are read once per row; file locking, directory syncing and staging directories are not modelled.
- Overlay.StreamIsGapFree: the stream identity is compared but its storage and its reset by an offline restore are not modelled; message templates are a rendering parameter.
- Nostr outbox, message cursor, quote reservation rows, configuration, weather and chat: single-transaction checks or floating point with no property across operations.
- Deployment, firewall and service scripts other than the file transaction: host plumbing.
