# Verified model of the gateway's money path and its protocols

This Dafny project models the part of the gateway that decides what a request may cost, who is
charged, and when money may be given back, together with the protocols around it. Everything is
proved for all inputs and, where a protocol is concerned, for every run. Nothing was executed.

`dafny verify dfyconfig.toml` checks the whole project.

| file | what it models |
|---|---|
| `Billing.dfy` | rate cards, frozen quotes, usage merging, checked 64-bit pricing |
| `Ledger.dfy` | the six aggregate tables and the reservation ledger as a state machine, and what every run keeps |
| `QuotaStore.dfy` | the store's transactions, statement by statement, each proved to be one ledger step or none |
| `Upstream.dfy` | fault classes, the failover loop and breaker, key rotation, the first-byte timer race |
| `Saga.dfy` | the chat relay and the synchronous capabilities: what each handler settles, and when |
| `Accounting.dfy` | handlers, ledger and real provider bills together: the exact account of every run |
| `Upload.dfy` | resumable uploads: file bytes and rows under failures, torn writes and crashes, call by call and over whole histories |
| `Overlay.dfy`, `HotConfig.dfy` | hot settings: validate, persist, swap, restart; the registry, the cross-field checks, the debug mask |
| `Voice.dfy` | enrolment and deletion as interleaving processes |
| `NonceCache.dfy`, `RateLimit.dfy`, `RateSample.dfy` | the three bounded in-memory structures and the simple specifications they refine |
| `UniqueJson.dfy` | the duplicate-key check on usage reports |
| `Recency.dfy`, `Arithmetic.dfy` | shared facts about recency lists and integer division |

## How the main claim is put together

The repository's own claim is that its failure mode is over-charging, never under-accounting.
`Ledger.EveryRunConserves` shows that in every reachable state each balance is exactly the sum of
what its ledger rows account for. `QuotaStore` shows that each store method is one step of that
machine. `Saga` describes everything a handler can have seen of a call and shows that it issues
exactly one close-out and which one. `Accounting` puts them together over every interleaving of
handlers, crashes, orphan scans and resets:

- `EveryRunAccounts` balances the books of every run exactly: balance + losses = bills + over-charges.
  It assumes only that a provider does not bill what it refused, nor more than it reported. `Loss` says
  what a row falls short by, from the row's state and what was seen of its call.
- `EveryRowHoldsItsBillUnlessPanic` and `OnlyPanicsUnderAccount`: for bills within the quote the only
  rows short of their bill are those a panic refunded, and the balances are short by at most those.
- `NeverUnderAccounts` is the corollary without billed panics, and `BilledPanicUnderAccounts` the run
  on which the claim fails with one.

`Accounting.FailedCallIsTruthful` takes the truthfulness of the unbilled classification back to the
provider not billing what it refuses, through the failover loop of `Upstream`. Crashes need no step of
their own: a handler that dies never closes its row, which then holds its reservation until an orphan
scan closes it at the full quote. So does one that panics outside the upstream call (`Saga.Lost`).

## What the proofs found

- A panic inside the upstream call refunds without proof: the deferred rollback of
  `internal/app/chat/forward.go:24-30` is still armed then. `Accounting.CloseOutCoversUnlessPanic` shows
  that this is the only way a close-out can fall below a truthful bill, and exactly when;
  `Accounting.BilledPanicIsNotCovered` and `Accounting.BilledPanicUnderAccounts` give the call and the run.
- A panic anywhere else between the reservation and its settlement leaves the row open
  (`internal/app/chat/service.go:345-365`, `internal/app/chat/forward.go:63-73`,
  `internal/app/genrun/genrun.go:292-322`), and the orphan scan closes it at the full quote:
  `Saga.Gateway.Handle` and `Saga.Gateway.Do` say exactly when.
- `internal/infra/upstream/transport.go:148-166` adds a 64-bit cursor that wraps. A scan across the wrap
  passes over a key unless the number of keys divides 2^64; `Upstream.ScanVisitsEveryKey` gives the
  exact condition and `Upstream.Skipped` the key.
- The request count of the global month has no guard of its own, unlike every other counter; what
  bounds it is the number of ledger rows (`Ledger.Ceiling`, `Ledger.EveryRunFits`).
- A bill above the quote is recorded in full only when the provider's own report is read and its top-up
  fits. A settlement whose top-up does not fit leaves its row open
  (`internal/infra/store/quotastore/quotastore.go:421-444`), and an orphan scan later closes it at the
  quote. `Accounting.EveryRunAccounts` counts all such rows exactly; for usage within the model's limits
  there are none (`Saga.ChatQuoteCoversTheModel`).
- Requests on one upload must not overlap: a second one cuts the file at its own stale cursor
  (`internal/app/media/media.go:357-366`). `Upload.OverlappingTrim` shows that the first one's cursor is
  then backed by its bytes exactly if nothing was cut.
- Completing an upload can answer with an error after it has sealed the upload, when the committed
  lease cannot be read back; `Upload.Service.Complete` states it that way.

## Model

| member | source | states |
|---|---|---|
| Billing.CheckedMul | internal/domain/billing/billing.go:539-544 | succeeds exactly when both factors are non-negative and the product fits, although the guard divides instead of multiplying |
| Billing.CheckedAdd | internal/domain/billing/billing.go:546-551 | succeeds exactly when both terms are non-negative and the sum fits, without computing a sum that could overflow |
| Billing.ScanMonotone | internal/domain/billing/billing.go:314-329 | on a monotone card fewer input tokens always find a tier, and never a dearer one |
| Billing.CardsAreMonotone | internal/domain/billing/billing.go:203-297 | every published card has non-decreasing prices with cache hits no dearer than misses, and prices its whole limit |
| Billing.CardFits | internal/domain/billing/billing.go:369-410 | the whole range a published card admits is priced within an int64 |
| Billing.BuiltMeaning | internal/domain/billing/billing.go:369-410 | a built plan carries the published card, the tier its prompt bound selects, and exactly its bounds at that tier's prices |
| Billing.PlansExistWithinCards | internal/domain/billing/billing.go:369-410 | a plan exists exactly for quantities a published card serves in that unit, and the overflow error is unreachable |
| Billing.ValidateMeansBuilt | internal/domain/billing/billing.go:346-364 | a plan passes a persistence boundary exactly when, under the published card, it is one the planner builds, so no field can be forged |
| Billing.AccumulateJoins | internal/domain/billing/billing.go:169-178 | folding any list of frames gives the field-wise maximum of clipped values, malformed exactly when some frame was malformed or negative |
| Billing.AccumulateIgnoresOrderAndRepetition | internal/domain/billing/billing.go:169-178 | two streams with the same frames in any order and number are charged alike |
| Billing.CostMeaning | internal/domain/billing/billing.go:466-532 | a usage is priced exactly when it is present, untainted, self-consistent, within the card and fits; the output charged is always total minus prompt |
| Billing.QuoteBoundsCost | internal/domain/billing/billing.go:466-532 | a usage within the quoted bounds never costs more than the reservation and never overflows, across tier jumps and cache hits |
| Billing.UnitCostMeetsReservation | internal/domain/billing/billing.go:449-461 | a unit plan settled at its quoted quantity costs exactly its reservation, every quantity costs its unit price, and another unit is refused |
| Ledger.DeniedIffNoRoom | internal/infra/store/quotastore/quotastore.go:61-200 | the ordered refusals of Reserve together refuse exactly the reservations some gate has no room for |
| Ledger.GuardsNeverMiss | internal/infra/store/quotastore/quotastore.go:296-376 | for a row still open in a conserved state, every balance holds at least what the row accounts for, in a row that exists |
| Ledger.BalanceCovers | internal/infra/store/quotastore/quotastore.go:391-444 | no balance is negative, none counts more requests than there are rows, and each covers every row it sums |
| Ledger.RewriteConserves | internal/infra/store/quotastore/quotastore.go:259-376 | closing a row in any of the three ways keeps every balance equal to the sum over its rows |
| Ledger.AppendConserves | internal/infra/store/quotastore/quotastore.go:49-201 | adding a reservation keeps every balance equal to the sum over its rows |
| Ledger.ResetConserves | internal/infra/store/quotastore/quotastore.go:545-570 | resetting a month's request counts with no row open leaves them counting exactly the rows since |
| Ledger.CloseKeepsInv | internal/infra/store/quotastore/quotastore.go:259-376 | a closing keeps every balance within zero and its ceiling |
| Ledger.AppendKeepsInv | internal/infra/store/quotastore/quotastore.go:49-201 | an admitted reservation keeps every balance within zero and its ceiling |
| Ledger.StepKeepsInv | internal/infra/store/quotastore/quotastore.go:49-570 | every committed transaction keeps the ledger conserved, well formed and in range |
| Ledger.EveryRunConserves | internal/infra/store/quotastore/quotastore.go:49-570 | in every state any interleaving reaches, each balance is the sum over its rows, none is negative, and each fits an int64 but the global month's request count, which is at most the number of rows |
| Ledger.EveryRunFits | internal/infra/store/quotastore/quotastore.go:49-570 | while the ledger has no more rows than an int64 counts, every balance fits its column, the global month's requests included |
| Ledger.RunExtendsLedger | internal/infra/store/quotastore/quotastore.go:259-376 | over any run a row keeps its identity, period and quote, and once terminal never changes again |
| Ledger.ClosingMoves | internal/infra/store/quotastore/quotastore.go:391-444 | a closing moves the four spend balances by the charge minus the quote and never raises a request or unit counter |
| Ledger.MonthSpendStep | internal/infra/store/quotastore/quotastore.go:165-178 | a reservation leaves the month within its limit, and nothing else raises the month beyond a settled top-up |
| Ledger.WalletCeiling | internal/infra/store/quotastore/quotastore.go:61-200 | at every reachable state the month's spend is at most the largest limit a reservation was taken under plus the settled top-ups |
| Ledger.CapsStep | internal/infra/store/quotastore/quotastore.go:61-137 | no step pushes a monthly or sublimited daily request count, or a capped category, beyond its cap |
| Ledger.CapsHold | internal/infra/store/quotastore/quotastore.go:61-137 | under fixed limits no install ever exceeds its monthly requests since the reset, its sublimited requests of a day, or a capped category's daily units |
| QuotaStore.ReservationFindsItsRow | internal/infra/store/quotastore/quotastore.go:378-386 | a reservation the store made is valid and finds its own row for as long as that row is open |
| QuotaStore.PlansAreRationedByModel | internal/infra/store/quotastore/quotastore.go:219-236 | every built plan draws on the category of its model, in pictures, characters or voices, and a video as one whatever its length |
| QuotaStore.Store.Update | internal/infra/store/quotastore/quotastore.go:581-597 | one guarded update hits its row and moves exactly that balance, or changes nothing |
| QuotaStore.Store.Reserve | internal/infra/store/quotastore/quotastore.go:49-201 | either the first gate without room is the refusal and nothing changed, or exactly one reservation step happened |
| QuotaStore.Store.TakeGates | internal/infra/store/quotastore/quotastore.go:61-178 | the gates, taken one by one on partly updated tables, refuse exactly as on the tables before any of them, and together move every balance by the row's share |
| QuotaStore.DenialInStages | internal/infra/store/quotastore/quotastore.go:61-200 | evaluating the shared gates after the install's own updates gives the same refusal as evaluating all of them up front |
| QuotaStore.Store.Settle | internal/infra/store/quotastore/quotastore.go:259-291 | a valid reservation either loses, closes its row at the charge and moves all four balances, or fails on an overflowing top-up leaving no trace |
| QuotaStore.Store.AdjustSpend | internal/infra/store/quotastore/quotastore.go:391-444 | all four spend balances move by the delta, or some guard misses; with a delta of zero nothing is touched |
| QuotaStore.AdjustableIffFits | internal/infra/store/quotastore/quotastore.go:391-444 | a refund always finds its money and a top-up applies exactly when it fits in all four balances |
| QuotaStore.Store.Rollback | internal/infra/store/quotastore/quotastore.go:296-376 | a rollback loses or reverses exactly what was taken; its guarded updates never miss, so it never aborts |
| QuotaStore.RollbackHits | internal/infra/store/quotastore/quotastore.go:317-375 | for an open row every guarded update of a rollback hits an existing row holding enough |
| QuotaStore.Store.ReconcileOne | internal/infra/store/quotastore/quotastore.go:506-528 | closes the one open row of that id at its full quote without moving a balance, or finds another operation won |
| QuotaStore.Store.ReconcileOrphans | internal/infra/store/quotastore/quotastore.go:473-504 | whatever others commit between the scan and the closings, each row found aged ends closed: at its full quote when the pass won it, which the count counts, and by another operation otherwise; alone, the pass closes exactly the aged rows and moves no balance |
| QuotaStore.OrphanPassAmongOthers | internal/infra/store/quotastore/quotastore.go:473-528 | with any other transactions between scan and closings, each row found aged ends closed for good: at the full quote and without moving a balance when nobody else won, otherwise exactly as the winner left it |
| QuotaStore.Store.ResetMonthlyRequests | internal/infra/store/quotastore/quotastore.go:545-570 | refuses while any row is open; otherwise clears exactly that month's request counts and reports how many rows had any |
| QuotaStore.Store.View | internal/infra/store/quotastore/quotastore.go:449-468 | what a client is shown is exactly what the ledger rows account for |
| Upstream.ClassesAreSound | internal/infra/upstream/faultclass.go:50-153 | an attempt is classed definitely unbilled exactly when it was refused, only refused attempts are retried, and success means the timer was disarmed in time |
| Upstream.Attempt | internal/infra/upstream/client.go:322-354 | ends after at most three attempts, every earlier one retryable and waited out, with the last one's outcome or a harmless cancellation |
| Upstream.OnePossibleCharge | internal/infra/upstream/client.go:316-354 | all attempts but the last were refused, and the outcome is definitely unbilled exactly when all of them were |
| Upstream.Do | internal/infra/upstream/client.go:267-316 | a call that is shed or misconfigured makes no attempt and records nothing; any other records one result for its whole attempt set |
| Upstream.CallIsSound | internal/infra/upstream/client.go:267-354 | a call reports definitely unbilled exactly when every attempt was refused, and records a breaker failure exactly when the last one was a fault |
| Upstream.AttemptsCostAtMostOne | internal/infra/upstream/client.go:316-354 | all attempts of a call together cost at most one quote, and nothing when it is reported unbilled |
| Upstream.PickKey | internal/infra/upstream/transport.go:148-166 | returns the first key in rotation that is not gated, and none only when every key it looked at is |
| Upstream.ScanVisitsEveryKey | internal/infra/upstream/transport.go:148-166 | a scan looks at every key exactly when its cursor does not wrap inside it or the number of keys divides 2^64 |
| Upstream.RaceStepKeepsInv | internal/infra/upstream/client.go:360-476 | each step of either goroutine keeps the flag's single winner and its consequences |
| Upstream.HandOffIsNeverTimedOut | internal/infra/upstream/client.go:360-476 | in every interleaving a handed-off stream is never canceled by the timer, a timer that won means no hand-off, and every other return released its context |
| Saga.StreamThrough | internal/app/chat/forward.go:84-142 | the one amount settled and the exact writes the client got, for any lines, any moment of disconnection and any scanner error |
| Saga.RelayLines | internal/app/chat/forward.go:107-141 | the relay loop leaves the client exactly the writes that fit, and the joined usage only when the end was cleanly read |
| Saga.RefundOnlyAtCleanEnd | internal/app/chat/forward.go:84-142 | a settlement differs from the quote only after [DONE], with every earlier line relayable and no bad frame, and is then the cost of the joined snapshots |
| Saga.ClientSeesPrefix | internal/app/chat/forward.go:84-142 | the client sees a prefix of the rewritten lines and nothing after [DONE] |
| Saga.OneCloseOutEach | internal/app/chat/service.go:327-365 | in any orderly trace each reservation is closed once or left open by a panic, at most one still owed |
| Saga.Gateway.AcquireSlot | internal/app/chat/service.go:436-455 | takes a free slot at once or one freed within the wait, and never exceeds the capacity |
| Saga.Gateway.Handle | internal/app/chat/service.go:327-365 | every admitted request gets exactly one close-out, or none and an open row when a panic outside the upstream open comes first; the provider is called only under the reservation and at most once, the slot is always returned, and a client that left the queue gets no reply |
| Saga.Gateway.Forward | internal/app/chat/forward.go:23-73 | each outcome of opening the stream leads to its one close-out, the deferred rollback included; a panic once rollback is disarmed and nothing is settled leads to none |
| Saga.Gateway.Relay | internal/app/chat/forward.go:84-173 | a streamed or whole answer is settled once, at the amount its content proves |
| Saga.Gateway.Do | internal/app/genrun/genrun.go:292-322 | a synchronous call is closed once: refunded only on an explicit unbilled refusal, at the unit cost on success, at the quote otherwise; a call that panics leaves its row open |
| Saga.ChatQuoteCoversTheModel | internal/app/chat/service.go:395-420 | the chat quote exists for the token model alone, whatever the caller estimates, and bounds every usage within the model's limits |
| Accounting.RefundOnlyOnProof | internal/app/chat/forward.go:16-73 | a call is refunded exactly on proof that it was unbilled or on a panic, and any charge other than the quote is the price the provider itself reported |
| Accounting.CloseOutCoversUnlessPanic | internal/app/chat/forward.go:23-73 | the close-out of a truthful call covers its bill if and only if it is not a panic with a bill |
| Accounting.BilledPanicIsNotCovered | internal/app/chat/forward.go:24-30 | a truthful call its close-out does not cover: the whole chat quote refunded after a billed panic |
| Accounting.BilledPanicUnderAccounts | internal/app/chat/forward.go:24-30 | for any quote, a run of one reservation and one deferred rollback that ends with the wallet below the real bill |
| Accounting.FailedCallIsTruthful | internal/infra/upstream/client.go:256-316 | a failed call is truthful as soon as the provider bills nothing for refusals and no attempt above the quote |
| Accounting.RunFollows | internal/app/chat/forward.go:23-73 | over every interleaving each row carries its call's quote and ended as its handler ends it, or as an orphan |
| Accounting.LossIsExact | internal/app/chat/forward.go:206-222 | what a row misses of an honest call's bill is nothing when it was settled at the reported price, the whole bill after a refunded panic, and otherwise the part above the quote |
| Accounting.EveryRunAccounts | README.md:19 | in every run with honest providers each spend balance plus its losses is exactly the bills plus the over-charges, so it under-accounts exactly when losses exceed over-charges |
| Accounting.EveryRowHoldsItsBillUnlessPanic | README.md:19 | in every run a truthful call's row holds its bill if and only if it was not rolled back after a billed panic |
| Accounting.OnlyPanicsUnderAccount | README.md:19 | with bills within their quotes the only losses of a run are refunded panics, exactly, and a balance is short of its bills by at most those |
| Accounting.NeverUnderAccounts | README.md:19 | over every interleaving with crashes and late orphan scans, each spend balance is at least the real provider bills it covers when no refunded panic was billed |
| Upload.TailIsFree | internal/infra/mediafs/mediafs.go:112-145 | anything may happen to a receiving upload's file past its cursor without harm |
| Upload.AdvanceKeeps | internal/infra/store/mediastore/mediastore.go:65-81 | moving the cursor over bytes just written acknowledges exactly that chunk |
| Upload.Service.FileAppend | internal/infra/mediafs/mediafs.go:55-91 | writes at exactly the expected offset or not; a torn write leaves a prefix of the chunk |
| Upload.Service.FileTruncate | internal/infra/mediafs/mediafs.go:112-145 | cuts a file back and never grows one |
| Upload.Service.Append | internal/app/media/media.go:341-383 | success acknowledges the whole chunk and an error none of it, a crash one or the other; an upload that expired before the cursor update is a conflict; every exit is a step of the histories below |
| Upload.Service.Stage | internal/app/media/media.go:357-382 | trims the tail, writes and moves the cursor, touching no other upload and nothing before the cursor |
| Upload.Service.Create | internal/app/media/media.go:258-275 | a new upload is its empty file and its row together; a failure leaves neither row, and any file left over is one no row names |
| Upload.Service.Complete | internal/app/media/media.go:388-423 | seals and leases exactly the object whose length, digest and type were verified, or changes nothing; an upload expired by then is a conflict; the answer is the committed lease read again, a conflict when it is not found |
| Upload.SealKeeps | internal/infra/store/mediastore/mediastore.go:87-123 | sealing verified bytes keeps every lease over a present object of the declared length, type and digest |
| Upload.Service.Cancel | internal/app/media/media.go:292-337 | the file goes only once the row is withdrawn, success means both, and a completed upload is untouched |
| Upload.WithdrawKeeps | internal/infra/store/mediastore/mediastore.go:48-60 | withdrawing an upload, with or without its file, harms no lease and no other upload |
| Upload.Service.OpenLease | internal/app/media/media.go:157-174 | a live lease with a good token always opens, on its whole declared object; anything else reads as absent |
| Upload.Service.RevokeLease | internal/infra/store/mediastore/mediastore.go:274-285 | retires only the owner's active lease and reports whether it did |
| Upload.LapseKeeps | internal/infra/store/mediastore/mediastore.go:141-149 | expiring what is due harms nothing still in use |
| Upload.Service.Repair | internal/app/media/media.go:125-141 | a receiving upload is cut back to its cursor, or expired when its bytes are not there |
| Upload.RemoveKeeps | internal/infra/store/mediastore/mediastore.go:177-197 | the ids selected for cleanup name no file that a receiving upload or an active lease needs |
| Upload.AcknowledgeKeeps | internal/infra/store/mediastore/mediastore.go:212-228 | acknowledging a removal drops only withdrawn rows or retires leases for good |
| Upload.Service.Drop | internal/app/media/media.go:146-153 | the bytes go before the row says so, and an interruption in between is repeatable |
| Upload.Service.AcknowledgeRemoved | internal/infra/store/mediastore/mediastore.go:212-228 | one transaction deletes the withdrawn row, or marks the completed upload's retired lease deleted |
| Upload.RecoveredInStages | internal/app/media/media.go:112-155 | lapse, repair and cleanup together keep exactly the unexpired uploads with all their bytes and leave every lease live or deleted |
| Upload.Service.Recover | internal/app/media/media.go:112-155 | from any state with sound leases a finished recovery leaves every receiving upload's file exactly at its cursor; interrupted anywhere, what held still holds |
| Upload.StepKeeps | internal/app/media/media.go:112-423 | every outcome of every call, its failures and crashes included, keeps cursors backed and leases over their declared objects |
| Upload.EveryHistoryIsSound | internal/app/media/media.go:112-423 | over any history of calls from the empty store, each succeeding, failing or dying at any effect, every cursor is backed by the acknowledged bytes and every active lease by its declared object |
| Upload.WhateverIsReachedIsSound | internal/app/media/media.go:112-155 | the same for every state the methods can reach, recoveries cut short anywhere among its past |
| Upload.UploadsGoOn | internal/infra/store/mediastore/mediastore.go:48-123 | over any history an upload keeps its identity, its cursor never goes back, its final state stays, and no acknowledged byte is taken back |
| Upload.AcknowledgedBytesStay | internal/app/media/media.go:337-383 | bytes acknowledged at any moment of a history are in the file at any later one at which the upload receives or is leased |
| Upload.LeasesOnlyRetire | internal/infra/store/mediastore/mediastore.go:141-285 | over any history a lease names the same object for good and never becomes usable again |
| Upload.OverlappingTrim | internal/app/media/media.go:357-382 | between a durable chunk and its cursor move, another request's cut leaves the new cursor backed if and only if it removes nothing |
| Overlay.ApplyOverrides | internal/domain/config/config.go:718-734 | applying a batch key by key gives the same result in any order, all of it or nothing |
| Overlay.BatchesChain | internal/domain/config/config.go:718-734 | two accepted batches in a row are one batch of both, the later winning |
| Overlay.BootAfterEdit | internal/infra/configprovider/provider.go:101-149 | an accepted edit of the live value is the same as booting the accumulated overlay |
| Overlay.SettingsStore.PersistAll | internal/infra/store/settingsstore/settingsstore.go:58-74 | every row of the batch lands or none does |
| Overlay.Provider.LoadWithOverlay | internal/infra/configprovider/provider.go:101-114 | boots the environment with everything persisted, and gives nothing for a corrupt overlay |
| Overlay.Provider.Apply | internal/infra/configprovider/provider.go:126-149 | a failed batch changes neither the live value nor the rows; a death before the swap leaves rows that boot what it was about to install |
| Overlay.RestartsRebuildTheLiveValue | internal/infra/configprovider/provider.go:73-149 | after any history of edits, failures, crashes and restarts the overlay boots in one batch to exactly the live value |
| HotConfig.AcceptedBatch | internal/domain/config/spec.go:417-427 | an accepted batch names editable keys only, leaves every other field alone and passes every cross-field check, those of the environment included |
| HotConfig.GatewayRestartsEquivalently | internal/infra/configprovider/provider.go:73-149 | restart equivalence for the gateway's own registry, checks and mask |
| HotConfig.DumpedValuesParseBack | internal/domain/config/spec.go:51-403 | what the dashboard renders for any editable field, number or text, parses back to the very value the field holds |
| HotConfig.SavingChangesNothing | internal/infra/configprovider/dump.go:29-60 | writing back any part of the editor as it is shown is an accepted batch that changes nothing |
| HotConfig.AcceptedStaysInRegistry | internal/domain/config/spec.go:51-427 | an accepted batch leaves every field with a value its own key can set |
| HotConfig.SavingTheEditorChangesNothing | internal/infra/configprovider/dump.go:29-60 | the same at any time, after any history of edits, failures, crashes and restarts from a validated environment |
| HotConfig.ProductionRestoresLimits | internal/domain/config/config.go:393-417 | selecting production enforces the configured values again, those debug had masked included |
| HotConfig.MaskIsIdempotent | internal/domain/config/config.go:393-417 | masking a masked value changes nothing |
| HotConfig.DebugNeverDeniesMore | internal/domain/config/config.go:393-417 | whatever the configured limits admit, the masked ones admit |
| HotConfig.AcceptedConfigAdmitsAChat | internal/domain/config/config.go:469-505 | under an accepted configuration, masked or not, the ledger admits the first chat of a month and day up to the worst-case quote, in whatever state a run has reached |
| HotConfig.AcceptedCapabilitiesArePriced | internal/domain/config/config.go:507-581 | an enabled image, speech or video model that passed the check on one piece has a plan for exactly the quantities its card serves |
| Voice.VoiceStore.CreateVoice | internal/infra/store/voicestore/voicestore.go:91-114 | inserts only within the inventory and under a free name, and keeps both rules |
| Voice.VoiceStore.DeleteVoice | internal/infra/store/voicestore/voicestore.go:121-135 | removes only the owner's row and says whether it was there |
| Voice.StaysAccounted | internal/app/voice/service.go:251-340 | no step loses a returned registration that is still live |
| Voice.StepKeepsInv | internal/app/voice/service.go:183-401 | every step of any request keeps the table sound and every registration accounted for |
| Voice.InventoryIsKept | internal/app/voice/service.go:183-401 | over every interleaving no install exceeds two rows or repeats a name, live registrations are recorded or reported, and each enrolment closes its reservation once: at the published price of one voice if the call may have been billed, refunded otherwise |
| NonceCache.Cache.UseOnce | internal/pkg/noncecache/noncecache.go:75-111 | in fail-closed mode admits exactly when the value is not live and fewer than max are, whatever expired entries the list holds |
| NonceCache.Cache.EvictExpired | internal/pkg/noncecache/noncecache.go:129-144 | the tail sweep never drops a live value |
| NonceCache.Cache.EvictAllExpired | internal/pkg/noncecache/noncecache.go:116-126 | after the full sweep the entries are exactly the live values |
| NonceCache.Cache.EvictOverflow | internal/pkg/noncecache/noncecache.go:148-158 | keeps exactly the most recent entries that fit, unchanged, so never drops the value just touched |
| NonceCache.RunsRefineTheTimedSet | internal/pkg/noncecache/noncecache.go:75-144 | over any run on a clock that does not go back the cache answers exactly as a bounded timed set |
| NonceCache.AdmittedStaysLive | internal/pkg/noncecache/noncecache.go:75-111 | an admitted value is remembered until its time is over, whatever else is tried |
| NonceCache.NeverTwiceWithinTtl | internal/pkg/noncecache/noncecache.go:75-111 | no value is admitted twice within its time to live |
| NonceCache.RunsNeverAdmitTwice | internal/pkg/noncecache/noncecache.go:75-111 | over any run on a clock that does not go back the cache never answers yes twice to one value within its time to live |
| RateLimit.AdmissionsAreAccounted | internal/infra/ratelimit/ratelimit.go:91-163 | tokens held plus admissions never exceed one bucket plus the refill since the first request |
| RateLimit.AdmitsAreBounded | internal/infra/ratelimit/ratelimit.go:91-163 | in any interval of d seconds under a cap, at most cap + cap * d / 60 requests of a resident key pass, however rates and overrides change |
| RateLimit.GlobalRateBound | internal/infra/ratelimit/ratelimit.go:62-122 | that bound holds at the largest global rate met, whatever overrides are installed |
| RateLimit.OverrideBound | internal/infra/ratelimit/ratelimit.go:131-163 | while an override is in force the bound holds with the override for the rate, at any global rates |
| RateLimit.RunsFollowTheBucket | internal/infra/ratelimit/ratelimit.go:91-190 | in any run of the limiter, rate changes included, a resident key's bucket goes through exactly its own calls, and its positive answers are exactly that bucket's admissions |
| RateLimit.RunsKeepTheGlobalRate | internal/infra/ratelimit/ratelimit.go:91-190 | in any d seconds of any run the limiter answers at most top + top * d / 60 requests of a resident key with yes, top being the largest rate in force at them, whatever overrides, rate changes and other keys do |
| RateLimit.RunsKeepTheOverride | internal/infra/ratelimit/ratelimit.go:91-190 | while an override is in force the limiter's own answers keep to the override's rate, however the global rate changes |
| RateLimit.IdleKeyPasses | internal/infra/ratelimit/ratelimit.go:91-122 | a key idle for one token's refill time is always let through |
| RateLimit.OverridesOnlyTighten | internal/infra/ratelimit/ratelimit.go:62-163 | installing an override never adds tokens, never raises the limit, and lets nothing through that would have been refused |
| RateLimit.RateLimiter.Allow | internal/infra/ratelimit/ratelimit.go:91-122 | one refill and one token of the key's own bucket, a full one when new; the key goes to the front, no other bucket changes and the least recent may be evicted |
| RateLimit.RateLimiter.SetKeyLimit | internal/infra/ratelimit/ratelimit.go:131-163 | tightens the same bucket and never adds tokens to one that exists |
| RateLimit.RateLimiter.SetRate | internal/infra/ratelimit/ratelimit.go:185-189 | changes the rate and no bucket: one step of the runs above |
| RateLimit.RateLimiter.Evict | internal/infra/ratelimit/ratelimit.go:201-216 | list and map hold the same keys, the most recent ones that fit, with their buckets unchanged |
| RateSample.SecondIsUnique | internal/pkg/ratesample/ratesample.go:69-92 | exactly one second of the window belongs to each bucket |
| RateSample.Sampler.Advance | internal/pkg/ratesample/ratesample.go:69-92 | rolling forward leaves each bucket with the count of its one second in the new window; a clock that went back counts as the last second |
| RateSample.Sampler.Observe | internal/pkg/ratesample/ratesample.go:96-105 | adds one observation stamped with the second in force |
| RateSample.Sampler.Snapshot | internal/pkg/ratesample/ratesample.go:109-126 | the rates are exactly the observations, and the errors, stamped within the window, per second of it |
| RateSample.BucketsCoverTheWindow | internal/pkg/ratesample/ratesample.go:109-126 | the buckets together count each observation of the window once and nothing else |
| UniqueJson.ValueIsExact | internal/domain/chat/usage.go:177-234 | consuming the tokens of any JSON tree leaves precisely what follows when all keys are unique at every depth, and fails otherwise |
| UniqueJson.MembersAreExact | internal/domain/chat/usage.go:187-218 | the seen-set scan of one object accepts exactly ASCII keys that differ from each other and from those seen, once lower-cased |
| UniqueJson.Decoder.ConsumeUniqueValue | internal/domain/chat/usage.go:177-234 | the recursive loops over the decoder compute exactly that consumption |
| UniqueJson.CheckIsExact | internal/domain/chat/usage.go:168-175 | the whole check says exactly whether a tree's keys are unique at every depth |
| UniqueJson.ExtractUsage | internal/domain/chat/usage.go:127-164 | finds the one usage member in any spelling typed decoding would match, refuses a second, and for a payload that breaks off says whether one was read before |
| UniqueJson.ParseUsagePayload | internal/domain/chat/usage.go:98-122 | a frame counts only when its single usage member has unique keys everywhere; any other is malformed, present exactly when a usage member was read |

## Left out

- HTTP handlers, routers, listeners, the dashboard UI, metrics, logs, the command line and migrations: no property beyond plumbing.
- SHA-256, HMAC and Ed25519: the digest and the type of a file's bytes are arbitrary functions, and whether a token verifies is an input.
- SQLite, encoding/json and the breaker library: a transaction is all or nothing, JSON is a token stream or a tree, and whether the breaker is open is an input. An error reported after a commit took effect is modelled only where the code itself reads back (completing an upload). A database error that ends an orphan pass early leaves the rest to the next pass.
- Time: clocks, timeouts, backoff and jitter are inputs; the terminal timestamp of a ledger row is not modelled.
- QuotaStore.Store.Reserve: a wallet limit below zero is outside the type; configuration admits only positive ones, and a very negative one would wrap in the subtraction of `quotastore.go:177`.
- Ledger.EveryRunConserves: the request count of the global month may pass an int64 after 2^63 rows, where the database would switch to floating point; Ledger.EveryRunFits says when it does not.
- Ledger.CapsHold: a reservation made before a change of limits may exceed the new caps, so the quotas and caps are held fixed.
- Upload.Service.Append: requests on one upload, and recovery, are serialized, as histories of whole calls; Upload.OverlappingTrim shows why.
- Upload.Service.Repair: failures of pure reads (row lookups, file sizes, digests) end a call before any effect and are not told apart.
- Upload.Service.Create: what makes a digest or a type acceptable is an input.
- NonceCache.Cache.UseOnce: outside fail-closed mode only refusal of live values and boundedness are stated, since overflow may forget a live value by design.
- RateLimit.RunsKeepTheGlobalRate: over exact reals and a clock that does not go back, for a key that is not evicted meanwhile (an evicted key starts full again) and a limiter that is on (one that is off lets everything through).
- RateSample.Sampler.Snapshot: rates are exact reals; the 64-bit range of a bucket is not modelled, and times are not before 1970.
- Voice.InventoryIsKept: processes do not crash; the account-wide ceiling is checked only before the provider call and bounds nothing under concurrency, so it is an input; row ids and registration ids are assumed never to repeat.
- HotConfig.AcceptedBatch: which key is named in an error is not modelled.
- UniqueJson.ParseUsagePayload: the typed decoding of fields is an arbitrary function.
- Upstream.Do: a zero or negative attempt budget is not modelled; production always allows three.
- The rewrite of public model names and the recognition of [DONE] on raw bytes: each stream line comes with their results.
- The per-fingerprint install cooldown, device proofs, the proof skew window, and the combined budget for inline and leased media.
- The realtime transcription path and its conversion of audio bytes to billable seconds.
