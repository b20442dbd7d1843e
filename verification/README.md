# APIBank, modelled and verified in Dafny

APIBank takes bank transfers and on-chain transfers as payments. Customers pay an order by quoting a
human name that the order borrows from a finite pool; a poller lists the bank account, stores each
transfer once, attributes it to an order and credits wallets; webhooks report the result; wallets pay
for subscriptions, with coupons. Its hard parts are small state machines over database tables that
many workers change at once. This project models those machines and proves what every run of them
keeps.

`dafny verify dfyconfig.toml` checks everything.

## How the model is built

A table is a sequence whose index is the primary key (reservations are a map). A database
transaction is a total function from state to state; where the source raises or a guard fails, the
state stays as it is or the result is an error value. An `Event` names one step, `Step` performs it,
and `Run` folds a sequence of events: a statement about `Run` is about every interleaving. Where the
source spreads an operation over several statements that other workers can come between (allocating
a name, posting to a wallet, leasing webhook rows, redeeming a coupon, polling, flushing counters),
each statement is an event of its own. Clocks, random draws, bank listings and delivery outcomes are
parameters of the events. What single transactions do is stated once more in the plainest terms
(amounts, times, texts, rows) in the `Outcomes` modules. Beside each machine stands a class whose
methods change fields step by step as the service does; each method is proved equal to the step
function it implements, so what is proved of the steps holds of the code-shaped methods.

| files | part of the system |
|---|---|
| `OrderLifecycle`, `Matcher`, `PaymentNames`, `NameParts`, `QuotedNames`, `Orders`, `OrderSafety`, `OrderAttribution`, `OrderLending`, `OrderAllocation`, `OrderOutcomes`, `OrderPayments`, `OrderStore` | orders, lent names, attribution and payment |
| `Wallet`, `WalletProtocol`, `WalletAnswers`, `WalletService` | the ledger, its locking protocol |
| `TopupFlow`, `TopupLoss`, `Polling` | from the bank's listing to the wallet |
| `Webhooks`, `WebhookLeases`, `WebhookRetries`, `WebhookOutcomes`, `WebhookDispatcher` | leases, retries |
| `Crypto`, `CryptoAccounts`, `CryptoTopups`, `CryptoHashes`, `CryptoOutcomes`, `CryptoDesk` | invoices, wallet slots, matching, credits |
| `Coupons`, `CouponRace`, `CouponLimits`, `Subscriptions`, `SubscriptionSafety`, `SubscriptionOutcomes`, `SubscriptionService` | discounts, purchases |
| `RateLimiter`, `UsageMetering`, `Crc16`, `CrcDivision`, `VietQr` | limiter, counters, QR text |
| `Common`, `Sums` | shared helpers |

## What was found

* The safety of lending a name rests on a link between two constants in different files: an order
  lives at most one day (`packages/schemas/orders.py:14`) and a name rests seven days
  (`packages/db/models.py:147`). `OrderLending.LendingSafeIffTtlWithinCooldown` shows that TTL ≤
  cooldown is exactly what is needed: one more tick of TTL and an early cancel makes two windows meet.
* The wallet's key check compares payloads (`packages/billing/wallet.py:67-78`), the refetch after a
  lost race does not (`packages/billing/wallet.py:103-112`): two calls with one key and different users,
  kinds or amounts can both succeed, the loser being answered with the winner's entry. Answers are
  truthful exactly when requests that share a key are the same
  (`WalletAnswers.TruthfulIffKeysAgree`). The branch that finds no row on refetch is dead.
* Ingest swallows a refused top-up credit (`packages/core/ingest.py:205-210`): a paid top-up is credited
  exactly when its key was unused (`TopupFlow.CreditPostsIffKeyUnused`, `TopupLoss.PaidButNotCredited`).
* Replaying `purchase` with a used key issues an unpaid invoice; debits equal invoices exactly when the
  key is fresh (`SubscriptionSafety.DebitMatchesInvoiceIffKeyFresh`).
* A coupon's global limit survives every race; its per-user limit has no guard and survives exactly
  when the remaining global uses cannot exceed it (`CouponLimits.LimitHoldsIffGlobalUsesFit`).
* `reconcile_tx_hash` does not look at the transfer's status: it keeps "one transfer, one invoice"
  exactly when each transfer is unmatched or fits no invoice at its turn
  (`CryptoHashes.HashKeepsOneInvoiceIffAllFresh`, `CryptoHashes.HashCanPayTwice`).
* Leases are exclusive exactly when no live batch outlasts the stuck timeout
  (`WebhookLeases.LeasesSafeIffLimitWithinTimeout`).
* A QR payload whose fields outgrow two-digit lengths, or with a negative amount, cannot be read back;
  `VietQr.PayloadReadsBackIffFits` gives the exact limits.

## Model

| member | source | states |
|---|---|---|
| `OrderLifecycle.ChainsEnd` | packages/core/state_machine.py:3-19 | No chain of accepted transitions is longer than two; a status has no successor exactly when it is paid, expired or canceled. |
| `OrderLifecycle.MovesOpen` | packages/core/state_machine.py:3-19 | What waits or is under review can be paid or canceled, only what waits can expire or go to review, and nothing else is accepted. |
| `PaymentNames.PoolNames` | packages/db/models.py:1135-1227 | The pool has 18000 entries and every one ends with the transfer suffix that legacy protection looks for. |
| `Matcher.ReorderKeepsDecision` | packages/core/matcher.py:61-90 | The decision depends only on the multiset of candidates, not on the order the database returns them in. |
| `Matcher.HitIffCodeStands` | packages/core/matcher.py:61-90 | A candidate is a hit if and only if it is pending, has not run out, asks for the amount, and the normalised text is something, then its normalised code, then something. |
| `Matcher.NormalizeConcat` | packages/core/matcher.py:42-58 | Normalisation distributes over concatenation. |
| `Matcher.SeparatorsKeepDecision` | packages/core/matcher.py:42-90 | Bank texts that agree once characters with an empty fold are dropped get the same decision. |
| `Matcher.AsciiSeparatorsAreNoise` | packages/core/matcher.py:42-58 | ASCII characters other than letters and digits, inserted anywhere, are such droppable noise. |
| `Matcher.MatchedMeansUnique` | packages/core/matcher.py:61-90 | `matched` names a candidate if and only if that candidate is pending, unexpired, of the right amount and quoted, and no other candidate is. |
| `OrderSafety.FreeIsReady` | packages/db/models.py:158-182 | A name the snapshot lists as available is in the pool and no pre-lending order still runs under it. |
| `OrderSafety.TakeDisjoint` | packages/db/models.py:184-213 | A won claim, judged against a snapshot that may be stale, gives a window that meets no earlier window under that name. |
| `OrderSafety.SettlesKeepsNames` | packages/db/repositories.py:41-60 | Cancel, pay and expire keep the lending invariant although they may shorten a reservation. |
| `OrderSafety.StepKeepsNames` | packages/db/models.py:145-223 | Every step of every session keeps: reservations outlast each order that ever took the name, and windows under one name on one account are disjoint. |
| `OrderSafety.RunKeepsNames` | packages/db/models.py:145-223 | The same over every interleaving, from any database of pre-lending orders. |
| `OrderLending.WindowsNeverOverlap` | packages/db/models.py:145-223 | With the shipped one-day TTL and seven-day cooldown and any pool, no instant lies in the windows of two orders that share an account and a name, whatever their status, in any run. |
| `OrderLending.LendingSafeIffTtlWithinCooldown` | packages/schemas/orders.py:14 | For every pool, TTL bound and cooldown: all runs keep windows disjoint if and only if the TTL bound does not exceed the cooldown. |
| `OrderLending.OverlapState` | packages/db/repositories.py:41-60 | With a TTL above the cooldown, an immediate cancel and one cooldown of waiting lead to two overlapping windows. |
| `OrderAllocation.UndisturbedOutcome` | packages/db/models.py:145-223 | Undisturbed, `allocate_order` reports a full pool iff every pool name is held, a duplicate iff the code is taken, and otherwise adds one order under a free name, reserved until its end plus the cooldown. |
| `OrderAllocation.FirstAttemptDecides` | packages/db/models.py:184-223 | Undisturbed, the first shuffled name is always won: the retry loop only serves contention. |
| `OrderOutcomes.AvailableIff` | packages/db/models.py:148-182 | A name may be tried if and only if it is in the pool, its reservation is over and no old order was paid, or ran out, less than the cooldown ago under it. |
| `OrderOutcomes.LookOutcome` | packages/db/models.py:184-189 | A session looks at its next name, and is told the pool is full only when it has none left. |
| `OrderOutcomes.ClaimOutcome` | packages/db/models.py:184-223 | Whoever came first in the meantime: a name is won exactly when its row was over at the snapshot and still is, or there is still none; a lost name sends the session to the next; a taken code ends it. |
| `OrderOutcomes.CancelOutcome` | packages/db/repositories.py:41-60 | Cancel closes only a pending order, and its name can be lent again exactly one cooldown later. |
| `OrderOutcomes.StatusOutcome` | packages/core/reconcile_runner.py:13-26 | Expiry and the administrator's cancel change statuses only, expiry exactly those of overdue pending orders. |
| `OrderStore.Store.Reservations` | packages/db/models.py:148-172 | The merged dictionary blocks a name at `now` exactly when a reservation or an old order under that name does. |
| `OrderStore.Store.AvailableNames` | packages/db/models.py:177-182 | The loop lists exactly the free names, in pool order. |
| `OrderStore.Store.LookUpName` | packages/db/models.py:184-189 | Fetching a name's row is the `Look` step of the session. |
| `OrderStore.Store.ClaimName` | packages/db/models.py:185-222 | One attempt (unique insert, guarded update, duplicate code, next name) is the `Claim` step. |
| `OrderStore.Store.TryNames` | packages/db/models.py:184-223 | The loop over names is the iterated look-and-claim of the session. |
| `OrderStore.Store.AllocateOrder` | packages/db/models.py:145-223 | The whole method leaves the state `OrderAllocation.UndisturbedOutcome` speaks of. |
| `OrderStore.Store.CancelOrder` | packages/db/repositories.py:41-60 | Cancels a pending order and restarts the cooldown of its name; changes nothing else. |
| `OrderStore.Store.ExpireOverdueOrders` | packages/core/reconcile_runner.py:13-26 | Exactly the overdue pending orders become expired, and their number is returned. |
| `OrderStore.Store.IngestTransaction` | packages/core/ingest.py:25-68 | Deduplicates, stores, decides and pays as the `Ingest` step does, reservation included. |
| `OrderAttribution.LendersDiffer` | packages/core/ingest.py:142-150 | Two orders of an account whose windows contain one instant carry different names, whatever their status. |
| `OrderAttribution.SurvivorsDiffer` | packages/core/ingest.py:142-150 | Two lent orders that pass the filter for one transfer carry different names. |
| `OrderAttribution.AtMostOneOwner` | packages/core/ingest.py:142-164 | A transfer quoting one pool name has at most one order in the whole history, paid and expired ones included. |
| `OrderAttribution.DecisionMeansPayable` | packages/core/ingest.py:126-164 | Ingest pays order `i` if and only if `i` is the single order payable by the transfer. |
| `OrderOutcomes.DecisionOutcome` | packages/core/ingest.py:126-164 | The decision is unmatched if and only if the transfer calls for no order, and names an order if and only if it calls for that one alone; what calling takes is spelled out in amounts, times and text. |
| `OrderOutcomes.IngestOutcome` | packages/core/ingest.py:25-186 | Everything ingest does: a known reference changes nothing, an outgoing transfer is stored, the one called order is paid and its name's cooldown restarted, no called order means unmatched, several mean review. |
| `OrderOutcomes.QuotedOrderIsPaid` | packages/core/ingest.py:126-186 | Whatever a payer writes before and after the name of a waiting order, with any separators in between, that order is paid, unless another called order's name stands in the text too. |
| `OrderAttribution.DecisionIsTheOwner` | packages/core/ingest.py:126-164 | Wherever the lending invariant holds, such a transfer is never ambiguous and pays exactly the payable order, which is its one owner. |
| `OrderAttribution.EveryRunPaysTheOwner` | packages/core/ingest.py:126-164 | The same after any run from any database of pre-lending orders. |
| `QuotedNames.NamesQuoteThemselvesOnly` | packages/core/matcher.py:42-90 | For a pool built from lists whose parts can be read from the end: a text that is a name of the pool, with any separators in it, mentions no other name of the pool. |
| `QuotedNames.ShippedListsRead` | packages/db/models.py:1135-1227 | The shipped surnames, middle names and given names are such lists. |
| `QuotedNames.QuotingANamePaysItsOrder` | packages/core/ingest.py:126-164 | With such a pool, after any run, such a text is never ambiguous and pays exactly the payable order. |
| `OrderPayments.StepKeepsPay` | packages/core/ingest.py:165-186 | Every step keeps paid orders and matched transactions inverse to each other. |
| `OrderPayments.RunKeepsPay` | packages/core/ingest.py:126-186 | Over every run: a one-to-one correspondence with equal positive amounts on one account, and no bank reference stored twice. |
| `OrderPayments.ReingestIsNoOp` | packages/core/ingest.py:31-40 | Ingesting a bank reference again, with whatever content, changes nothing. |
| `OrderPayments.RunGrows` | packages/core/state_machine.py:3-19 | Over every run, paid, expired and canceled orders never change, every status change is an accepted transition, and orders keep name, amount, account and window. |
| `Wallet.RequestsAreSigned` | packages/billing/wallet.py:115-218 | Credit, debit, refund and adjust refuse exactly the amounts of the wrong sign, and otherwise ask for the caller's amount with the sign of the operation. |
| `Wallet.ApplyKeepsBook` | packages/billing/wallet.py:49-112 | One call keeps: balance is the sum of entries, every `balance_after` is the running sum, nothing is negative, keys are unique. |
| `Wallet.ApplyTwice` | packages/billing/wallet.py:67-78 | A repeated call changes nothing and returns the same entry. |
| `Wallet.ApplyOutcome` | packages/billing/wallet.py:49-112 | A used key is answered with its entry or a conflict, by user, kind and amount; otherwise exactly a missing user or a lack of funds refuses the call, and else the amount is posted. |
| `WalletProtocol.StepKeeps` | packages/billing/wallet.py:49-112 | Every step of every call (check, lock, flush, commit, roll back, refetch) keeps the ledger invariant and exclusive locks. |
| `WalletProtocol.RunKeeps` | packages/billing/wallet.py:49-112 | The ledger invariant over every interleaving, same-key races included. |
| `WalletProtocol.StepRefinesApply` | packages/billing/wallet.py:76-112 | A step that changes the committed book does exactly what one atomic call would. |
| `WalletProtocol.RunRefinesSequential` | packages/billing/wallet.py:49-112 | Every interleaving ends in the book that the committed requests give when applied one after the other. |
| `WalletProtocol.AppliedKeyChangesNothing` | packages/billing/wallet.py:42-46 | No step of a call whose key is in the ledger changes the book. |
| `WalletProtocol.CallersAgree` | packages/billing/wallet.py:67-112 | All calls that return for one key return one entry, race losers included. |
| `WalletProtocol.RefetchFindsTheWinner` | packages/billing/wallet.py:103-112 | After a rolled-back flush the refetch always finds a row; the re-raise is unreachable. |
| `WalletProtocol.UndisturbedIsAtomic` | packages/billing/wallet.py:49-112 | A call that nobody gets in the way of does what the atomic call does and answers the same. |
| `WalletAnswers.AgreeingKeysAreTruthful` | packages/billing/wallet.py:67-112 | Over every run from every sound ledger: if requests that share a key are the same request, every call that returns is answered with its own user, kind and amount. |
| `WalletAnswers.LostRaceSkipsPayloadCheck` | packages/billing/wallet.py:103-112 | From any state where two calls with one unused key passed the check, same user or not, a run answers the loser with the winner's entry. |
| `WalletAnswers.RaceIsReachable` | packages/billing/wallet.py:67-80 | Any two acceptable requests with one key get into that state from a sound ledger and no calls. |
| `WalletAnswers.TruthfulIffKeysAgree` | packages/billing/wallet.py:67-112 | A set of requests is answered truthfully in every run from every sound ledger if and only if those that share a key are the same request. |
| `WalletService.Service.ExistingByIdempotency` | packages/billing/wallet.py:42-46 | Finds the entry with the key, if there is one. |
| `WalletService.Service.ApplyCall` | packages/billing/wallet.py:49-112 | The in-place update equals one atomic `Apply`, results and errors included. |
| `TopupFlow.RunKeeps` | packages/billing/topup.py:72-97 | Every run of order steps and wallet calls keeps ledger, payments and top-up entries consistent with each other. |
| `TopupFlow.TopupsAreExact` | packages/core/ingest.py:170-210 | For any polls with repeats: one `topup:` entry per paid top-up order with an existing user and none else, totalling the transfers matched to those orders. |
| `TopupFlow.CreditPostsIffKeyUnused` | packages/core/ingest.py:195-210 | A transfer that pays a creditable order adds an entry if and only if the order's key was unused; the order is paid either way. |
| `TopupLoss.PaidButNotCredited` | packages/core/ingest.py:195-210 | From a fresh installation, a run in which the key of order 0 is taken first ends with a paid top-up of an existing user and no entry for it. |
| `Polling.CoverIffGapsWithinReach` | apps/worker/main.py:300-311 | Successful windows, the first reaching back two days, cover every instant since the first start if and only if no two successes are more than two days apart. |
| `Polling.PollsCoverIffGapsWithinReach` | apps/worker/main.py:300-329 | The same for the windows of every run with crashes. |
| `Polling.StepKeeps` | apps/worker/main.py:300-329 | Opening, storing, crashing, saving and all foreign steps keep: everything the bank lists for a saved window is stored. |
| `Polling.EverythingStoredOnce` | apps/worker/main.py:300-329 | With gaps within two days, every transfer the bank has for the covered time is stored exactly once, as listed, despite crashes before the cursor save. |
| `Polling.Poller.PollOnce` | apps/worker/main.py:300-329 | One pass, failing anywhere or nowhere, equals opening, storing one by one, then crashing or saving the cursor. |
| `WebhookLeases.RunMarks` | packages/webhook/dispatcher.py:51-72 | In every run, however late dispatchers are, a row is `dispatching` exactly when `claimed_at` is set. |
| `WebhookLeases.StepKeeps` | packages/webhook/dispatcher.py:75-179 | Claim, load, apply, crash, reset and time keep: held copies equal the stored rows and no row has two holders. |
| `WebhookLeases.NoDoubleDispatch` | packages/webhook/dispatcher.py:75-179 | With distinct tokens and timely batches, no attempt is ever held by two dispatchers. |
| `WebhookLeases.ApplyAllEffect` | packages/webhook/dispatcher.py:240-278 | Applying a batch writes each held row's own outcome over it. |
| `WebhookLeases.ApplyAllLeaves` | packages/webhook/dispatcher.py:240-278 | Applying a batch leaves all other rows alone. |
| `WebhookLeases.LateBatchCanBeDoubled` | packages/webhook/dispatcher.py:51-72 | A live batch older than the stuck timeout can be reset and its row held twice. |
| `WebhookLeases.LateRunDoubles` | packages/webhook/dispatcher.py:51-72 | For every age limit above the stuck timeout, a run from nothing within that limit ends with one row in two hands. |
| `WebhookLeases.LeasesSafeIffLimitWithinTimeout` | packages/webhook/dispatcher.py:51-179 | With distinct tokens and all live batches younger than a limit, every run keeps rows singly held if and only if the limit is at most the stuck timeout. |
| `WebhookRetries.WaitInBand` | packages/webhook/dispatcher.py:42-48 | Every wait lies within a quarter of its scheduled delay, for every jitter. |
| `WebhookRetries.SteadySchedule` | packages/webhook/dispatcher.py:24-48 | Without jitter the waits are 30 s, 2 min, 10 min, 1 h, 6 h and 24 h, 112350 s in all. |
| `WebhookRetries.WaitsIncrease` | packages/webhook/dispatcher.py:24-48 | Waits between failures strictly increase for every choice of jitter. |
| `WebhookRetries.SettleKeepsRow` | packages/webhook/dispatcher.py:240-277 | Each non-fatal outcome lowers the attempts left and keeps the row's schedule. |
| `WebhookRetries.RetriesAreBounded` | packages/webhook/dispatcher.py:240-277 | In runs with distinct tokens and timely batches, a row absorbs at most seven non-fatal outcomes, fewer while open; waits increase and total at most 1.25 × 112350 s. |
| `WebhookRetries.ClosedIsFinal` | packages/webhook/dispatcher.py:240-277 | In runs with distinct tokens and timely batches, delivered and dead rows never change again. |
| `WebhookOutcomes.RowTellsItsHistory` | packages/webhook/dispatcher.py:240-278 | In runs with distinct tokens and timely batches: delivered if and only if the last applied outcome is a success, dead if and only if it is fatal or the seventh failure; an open row is due when enqueued, or one wait in its band after the batch that failed it. |
| `WebhookOutcomes.DeliveredAsReturned` | packages/webhook/dispatcher.py:240-278 | In such runs the delivered rows are as many as the batches returned. |
| `WebhookOutcomes.RunNeverEarly` | packages/webhook/dispatcher.py:98-131 | In every run a leased row was due when it was leased, and its claim is dated less than a second ahead. |
| `WebhookDispatcher.Dispatcher.PickDue` | packages/webhook/dispatcher.py:105-112 | Picks due rows, none running later than a due row left behind, as many as the batch takes. |
| `WebhookDispatcher.Dispatcher.ClaimAttempts` | packages/webhook/dispatcher.py:75-179 | Leases exactly those rows under one token. |
| `WebhookDispatcher.Dispatcher.ResetStuckDispatching` | packages/webhook/dispatcher.py:51-72 | Returns exactly the stuck rows to pending and counts them. |
| `WebhookDispatcher.Dispatcher.ApplyOutcomes` | packages/webhook/dispatcher.py:240-278 | The outcome loop equals the `Finish` step, row by row, and returns the number delivered. |
| `CryptoAccounts.RunKeepsSlots` | packages/crypto/invoices.py:114-125 | Over every run each wallet's `active_invoice_count` is its number of waiting or partial invoices. |
| `CryptoAccounts.OpenIsCounted` | packages/crypto/invoices.py:230-233 | The `> 0` guard never suppresses a release. |
| `CryptoAccounts.CreateStaysWithinLimit` | packages/crypto/invoices.py:84-125 | An invoice without a supplied address takes a least busy wallet and leaves it within its maximum. |
| `CryptoAccounts.MatchKeepsMoney` | packages/crypto/invoices.py:257-314 | Matching an unmatched transfer keeps the accounts; the existing-match and partial branches are not reached. |
| `CryptoAccounts.RunKeepsMoney` | packages/crypto/invoices.py:257-314 | Over every run: one match per invoice, one invoice per transfer, received is 0 or the pay amount, never partial, and total received equals total matched transfers; each match joins an invoice and a transfer of one network, token and address, a dated block within the invoice's window. |
| `CryptoAccounts.RunTraces` | packages/crypto/invoices.py:257-314 | Over every run each completed invoice and each matched transfer has its match. |
| `CryptoOutcomes.EveryRunIsHealthy` | packages/crypto/invoices.py:114-314 | The invariants on money, slots and ledger hold together over every run. |
| `CryptoOutcomes.MatchOutcome` | packages/crypto/invoices.py:257-314 | An unmatched transfer completes the oldest open invoice at its address, in its token and network, for its amount and with its time in the window, gives back the slot and credits the user; it changes nothing if there is none, and fails if the credit is refused. |
| `CryptoOutcomes.WatchOutcome` | packages/crypto/watchers/evm.py:119-148 | A log is stored once, and then matched as above. |
| `CryptoOutcomes.ReconcileOutcome` | packages/crypto/reconcile.py:16-34 | Reconciling touches only unmatched transfers of the invoice's address, token, network and amount; unless a credit is refused, each of those is then matched or pays no open invoice. |
| `CryptoOutcomes.SuffixOutcome` | packages/crypto/invoices.py:47-53 | The amount to pay is a multiple of the dust step, above the requested amount by more than `draw` and at most `draw + 1` steps. |
| `CryptoOutcomes.CreateOutcome` | packages/crypto/invoices.py:84-205 | An invoice is created if and only if the request is new, the amount within the limits and a wallet to be had; it waits at that wallet's address for the requested time. |
| `CryptoOutcomes.CloseOutcome` | packages/crypto/invoices.py:208-254 | Cancel and expiry close open invoices, expiry only after their time, under their own status, and give back the slot. |
| `CryptoTopups.RunKeeps` | packages/crypto/topup.py:11-26 | Every run of the desk and of other wallet calls keeps ledger entries and completed invoices consistent. |
| `CryptoTopups.CryptoTopupsAreExact` | packages/crypto/topup.py:11-26 | Over every run: one `crypto-topup:` entry per completed invoice with a user and an amount and none else, for that user and amount, the user existing and the amount positive, with equal totals. |
| `CryptoTopups.RefusedIffWalletRefuses` | packages/crypto/invoices.py:298-304 | A match is rolled back if and only if it would complete an invoice whose user does not exist or whose amount is not positive. |
| `CryptoHashes.OneInvoiceIffUnmatchedOrUnfit` | packages/crypto/invoices.py:257-314 | Matching a transfer of any status keeps one invoice per transfer if and only if it was unmatched or fits no invoice. |
| `CryptoHashes.LoopKeepsOneInvoiceIffAllFresh` | packages/crypto/reconcile.py:43-49 | Matching a list of transfers of any status keeps one invoice per transfer if and only if each is unmatched, or fits no invoice, at its turn. |
| `CryptoHashes.HashKeepsOneInvoiceIffAllFresh` | packages/crypto/reconcile.py:37-49 | The same for the transfers of one transaction hash. |
| `CryptoHashes.HashCanPayTwice` | packages/crypto/reconcile.py:37-49 | From an empty desk, two invoices at one address for one amount, one transfer and its hash reconciled: the transfer funds both. |
| `CryptoDesk.Store.ChooseWallet` | packages/crypto/invoices.py:84-125 | The loop finds the least busy enabled wallet with a free slot, the oldest among equals. |
| `CryptoDesk.Store.PickWallet` | packages/crypto/invoices.py:84-125 | Chooses the wallet, registers a merchant's new address, and refuses a disabled one. |
| `CryptoDesk.Store.CreateInvoice` | packages/crypto/invoices.py:128-205 | Answers a repeated request with its invoice or, on another payload, a conflict; otherwise creates the invoice and takes its slot, or refuses and changes nothing. |
| `CryptoDesk.Store.ReleaseWalletSlot` | packages/crypto/invoices.py:230-233 | Gives back one slot of the wallet, guarded at zero. |
| `CryptoDesk.Store.CancelInvoice` | packages/crypto/invoices.py:208-227 | Cancels exactly an open invoice and releases its slot. |
| `CryptoDesk.Store.ExpireDueInvoices` | packages/crypto/invoices.py:236-254 | Expires overdue open invoices, each once, up to the limit, and all of them when below it; returns how many. |
| `CryptoDesk.Store.CreditWallet` | packages/crypto/topup.py:11-26 | Posts the invoice's credit, does nothing without a user or an amount, and fails exactly where the wallet raises. |
| `CryptoDesk.Store.MatchOne` | packages/crypto/invoices.py:257-314 | The in-place matching, wallet credit included, equals the match step; where the wallet raises nothing changes. |
| `CryptoDesk.Store.MatchListed` | packages/crypto/reconcile.py:30-34 | Matching a list, stopping at the first failure, equals matching them in one transaction, and counts the transfers that found an invoice. |
| `CryptoDesk.Store.Reconcile` | packages/crypto/reconcile.py:16-34 | Selects the unmatched transfers that fit, matches them and returns the count, or changes nothing. |
| `Coupons.HalfEven` | packages/billing/coupons.py:90-92 | The result is within half a unit of the quotient, and even on ties. |
| `Coupons.DiscountSplitsPrice` | packages/billing/coupons.py:78-113 | Discount plus final price is the price, the discount lies between 0 and the price, and the coupon is refused exactly when misconfigured or below its minimum. |
| `Coupons.RoundsIffHalfEven` | packages/billing/coupons.py:90-92 | There is exactly one nearest number with ties to even, and rounding finds it. |
| `Coupons.DiscountOutcome` | packages/billing/coupons.py:78-113 | The discount is the rounded share of the price, the cap where the share reaches it, the whole price beyond one hundred percent, nothing below zero; a fixed coupon takes its amount as far as the price goes. |
| `Coupons.PercentStep` | packages/billing/coupons.py:87-92 | One more VND moves a half-even percent discount by 0 or 1. |
| `Coupons.DiscountMonotone` | packages/billing/coupons.py:78-113 | For one coupon, discount and final price both grow with the price, through rounding, cap and clamp. |
| `CouponRace.RunKeepsCounter` | packages/billing/coupons.py:153-200 | In every interleaving of redemptions the counter equals the rows, each row belongs to one finished call, and the maximum is never passed. |
| `CouponLimits.ReachIsReached` | packages/billing/coupons.py:116-200 | From any reachable state some run without further validations gives the user one row for each open validated call, as far as global uses last. |
| `CouponLimits.LimitSurvivesIffReachWithin` | packages/billing/coupons.py:116-136 | In every reachable state, for any number of open calls: the per-user limit survives every continuation in which the user validates no further call if and only if that reach is within the limit. |
| `CouponLimits.RoomyRunsKeepTheLimit` | packages/billing/coupons.py:116-136 | Over every run whose successful validations leave the reach within the limit, however many overlap, the limit holds. |
| `CouponLimits.LimitHoldsIffGlobalUsesFit` | packages/billing/coupons.py:116-200 | For a user who may use the coupon: all runs with any number of calls keep the per-user limit if and only if the coupon's remaining global uses fit into what the user has left. |
| `CouponLimits.UndisturbedRedemption` | packages/billing/coupons.py:55-200 | An undisturbed redemption is served, counted and recorded if and only if the coupon is active, in its window, not used up, for this plan and below the user's limit. |
| `SubscriptionSafety.ActiveMeansLive` | packages/billing/subscription.py:31-46 | The lookup finds a live subscription of the user if and only if there is one. |
| `SubscriptionSafety.RedeemKeepsCoupons` | packages/billing/coupons.py:153-200 | A redemption keeps counters equal to rows and within the global and per-user limits. |
| `SubscriptionSafety.PurchaseKeeps` | packages/billing/subscription.py:58-160 | A purchase with a fresh key keeps money, time and coupon uses conserved. |
| `SubscriptionSafety.RefundKeeps` | packages/billing/subscription.py:194-240 | Canceling and refunding the rest keeps the invariant and uses up no purchase key. |
| `SubscriptionSafety.RunKeeps` | packages/billing/subscription.py:58-252 | Over every run with fresh keys: one live subscription per user, as long as the plans bought into it, debits equal invoices, coupon counters exact. |
| `SubscriptionSafety.DebitMatchesInvoiceIffKeyFresh` | packages/billing/subscription.py:97-143 | A successful purchase, with or without a coupon, keeps debits equal to invoices if and only if its key was unused. |
| `SubscriptionSafety.ReplayIsReachable` | packages/billing/subscription.py:97-143 | From an opening shop, a top-up and two purchases with one key end with debits and invoices apart. |
| `SubscriptionOutcomes.RedeemOutcome` | packages/billing/coupons.py:55-200 | A purchase may use a coupon if and only if every rule on it holds; the use is counted and recorded. |
| `SubscriptionOutcomes.PlainPurchaseOutcome` | packages/billing/subscription.py:58-156 | With a fresh key a purchase goes through if and only if the plan is on sale at a positive price the user can pay; the price is debited and invoiced, and the current subscription prolonged from its end or one started now. |
| `SubscriptionOutcomes.CouponPurchaseOutcome` | packages/billing/subscription.py:58-156 | With a coupon the same for what the discount leaves of the price, and the use is recorded with the invoice. |
| `SubscriptionOutcomes.LinkedStays` | packages/billing/subscription.py:139-156 | Linking a redemption to its invoice leaves those that have one alone. |
| `SubscriptionOutcomes.RefundOutcome` | packages/billing/subscription.py:202-231 | With d whole days left of n, the refund is price times d / n, rounded half to even, under its own key, and nothing is posted when that is not positive; the subscription is canceled. |
| `SubscriptionOutcomes.RefundGrows` | packages/billing/subscription.py:215-221 | The refund grows with the days left, is 0 for none and the price for all. |
| `SubscriptionOutcomes.ChangeOutcome` | packages/billing/subscription.py:194-240 | A change of plan goes through if and only if the balance with the refund covers the new price; it cancels, refunds, debits, invoices and starts the new plan now. |
| `SubscriptionOutcomes.ExpiryOutcome` | packages/billing/subscription.py:243-252 | An expiry pass ends exactly the active subscriptions whose time is over. |
| `SubscriptionService.Service.GetActiveSubscription` | packages/billing/subscription.py:31-46 | The loop finds the active row that expires last, unless it has lapsed. |
| `SubscriptionService.Service.RedeemCoupon` | packages/billing/coupons.py:153-200 | Redeems as the `Redeem` step does, or changes nothing. |
| `SubscriptionService.Service.ExtendOrStart` | packages/billing/subscription.py:108-128 | Adds the duration to the live subscription, or starts one now. |
| `SubscriptionService.Service.SettlePurchase` | packages/billing/subscription.py:95-156 | Debit, extension, invoice and link as one step, or nothing. |
| `SubscriptionService.Service.PurchasePlan` | packages/billing/subscription.py:58-160 | The whole purchase as one step, or nothing. |
| `SubscriptionService.Service.RefundRunning` | packages/billing/subscription.py:207-230 | Cancels the running subscription and posts the prorated refund, or changes nothing. |
| `SubscriptionService.Service.ChangePlanTo` | packages/billing/subscription.py:194-240 | Refund and purchase as one step, or nothing. |
| `SubscriptionService.Service.ExpireDueSubscriptions` | packages/billing/subscription.py:243-252 | Marks exactly the lapsed active rows and returns how many. |
| `RateLimiter.AllowedPerWindow` | packages/security/rate_limit.py:67-82 | In an aligned window the number allowed is the lesser of the hits and the capacity, none when it is negative. |
| `RateLimiter.AllowedPerSpan` | packages/security/rate_limit.py:67-82 | No span of `window_seconds`, aligned or not, lets more than twice the capacity through. |
| `RateLimiter.BucketIsWindow` | packages/security/rate_limit.py:68 | The `k`-th bucket is the `k`-th stretch of `window_seconds`. |
| `RateLimiter.AnswerIsRight` | packages/security/rate_limit.py:76-82 | A hit is allowed while fewer than `capacity` came before it in its window, exactly `remaining` of the following ones are, and waiting `retry_after` leads into the next window. |
| `RateLimiter.PruneSafe` | packages/security/rate_limit.py:70-75 | Pruning forgets no count that a later hit can ask for. |
| `RateLimiter.InMemoryRateLimiter.HitNow` | packages/security/rate_limit.py:67-82 | The pruned table answers each hit as counting the full history would. |
| `UsageMetering.NothingLost` | apps/api/middleware/usage_metering.py:93-171 | In every interleaving, stored + buffered + in flight equals recorded, for requests and for errors, and errors never exceed requests. |
| `UsageMetering.QuietMeansStored` | apps/api/middleware/usage_metering.py:93-171 | With nothing buffered or in flight, the database has every request. |
| `UsageMetering.Middleware.RecordRequest` | apps/api/middleware/usage_metering.py:182-200 | Counts one request, and an error when the status says so. |
| `UsageMetering.Middleware.TakeSnapshot` | apps/api/middleware/usage_metering.py:93-98 | Swaps the buffer for an empty one. |
| `UsageMetering.Middleware.CommitSnapshot` | apps/api/middleware/usage_metering.py:100-161 | Adds the snapshot to the stored counts. |
| `UsageMetering.Middleware.RestoreSnapshot` | apps/api/middleware/usage_metering.py:162-171 | Merges a failed snapshot back into the buffer, which may have grown meanwhile. |
| `UsageMetering.MergeInto` | apps/api/middleware/usage_metering.py:162-171 | The merge loop adds the two tables key by key. |
| `Crc16.RoundLinear` | packages/qr/vietqr.py:58-63 | One round is linear over exclusive or. |
| `Crc16.RoundsInjective` | packages/qr/vietqr.py:58-63 | Any number of rounds is injective on 16-bit registers. |
| `Crc16.TwoBytesInjective` | packages/qr/vietqr.py:56-63 | Two bytes enter the register injectively, whatever it held. |
| `Crc16.FeedAllInjective` | packages/qr/vietqr.py:56-63 | No common continuation brings two different registers together. |
| `Crc16.AdjacentErrorsChangeTheChecksum` | packages/qr/vietqr.py:54-64 | Equal-length ASCII texts of any length that differ only within two adjacent characters print different checksums. |
| `Crc16.Hex4Reads` | packages/qr/vietqr.py:64 | The four printed digits are the register in hexadecimal, highest first. |
| `CrcDivision.ChecksumIsRemainder` | packages/qr/vietqr.py:54-64 | The checksum is the remainder of the text, as a binary polynomial with its start register, on division by x^16 + x^12 + x^5 + 1. |
| `CrcDivision.OneRemainder` | packages/qr/vietqr.py:54-64 | No number has two such remainders. |
| `Crc16.Crc16CcittFalse` | packages/qr/vietqr.py:54-64 | The nested loop computes that checksum in four hex digits, and nothing for text that is not ASCII. |
| `VietQr.FieldsReadBackIffSized` | packages/qr/vietqr.py:50-51 | A list of fields with two-character tags reads back if and only if every value is at most 99 characters. |
| `VietQr.StrParses` | packages/qr/vietqr.py:79 | The printed amount is the amount, sign included. |
| `VietQr.PayloadExistsIffAscii` | packages/qr/vietqr.py:67-85 | A payload is produced if and only if BIN, account number and content are ASCII. |
| `VietQr.PayloadReadsBackIffFits` | packages/qr/vietqr.py:67-85 | A reader recovers BIN, account, amount and content through both nesting levels if and only if BIN and account total at most 73 characters, content is at most 95, and the amount is not negative and at most 99 digits. |
| `VietQr.SixDigitBin` | packages/qr/vietqr.py:67-85 | With a six-digit BIN, 67 characters of account number are the tight limit. |
| `VietQr.DamageIsRefused` | packages/qr/vietqr.py:67-85 | A payload changed within any two adjacent characters, checksum included, is refused by the reader. |
| `VietQr.Generate` | packages/qr/vietqr.py:67-85 | The generator prints the payload the other rows speak of. |

## Assumptions

* One clock that does not go back, shared by all workers.
* A wallet call reads, under the row lock, the balance the lock protects (`packages/billing/wallet.py:84`).
* One ingesting session per bank account at a time.
* Pre-lending orders satisfy the TTL bound and were created before they were paid.
* Bank references of one account are unique in the bank's own listing.
* The bank lists, at the end of a window, everything it will ever date at or before that end.
* The plan catalogue does not change during a run.
* A watcher's scan is the sequence of its logs that survive: a log whose scan is rolled back leaves
  nothing behind and is scanned again.
* Amounts are small enough for the 28 digits of decimal arithmetic not to round before the whole number.
* Text folding acts one character at a time, sends ASCII letters and digits to one character each and
  ASCII separators to none.

## Left out

- WebhookLeases.NoDoubleDispatch: takes distinct claim tokens as given, since the source draws them at random.
- TopupFlow.TopupsAreExact: other wallet callers must leave `topup:` keys alone, which the source does not enforce.
- CryptoTopups.CryptoTopupsAreExact: other wallet callers must leave `crypto-topup:` keys alone, which the source does not enforce.
- SubscriptionSafety.RunKeeps: purchases are atomic and keys are fresh; refunds after mixing plans are not bounded by what was paid.
- HTTP delivery, Redis publish and subscribe, SMTP, Telegram, bank adapters and OAuth are outcomes or listings chosen by the environment.
- The Redis rate limiter, the Redis poller lock, login backoff and adapter sessions.
- Full Unicode normalisation: canonical reordering across characters is not modelled.
- Overrides with which administrators write states directly, except the order cancel, which is a step.
- Row locks with which concurrent PostgreSQL claims skip each other: a claim is atomic, and in runs it may take any set of due rows.
- Webhook fan-out, audit rows, notifications and callbacks, and their retry counters.
- Endpoint classification and the key filter of usage metering: a request arrives with its key.
- User registration: the set of wallets does not grow during a run.
- `reconcile_tx_hash` as a step of runs; its effect in any state of a run is characterised exactly.
- Sessions, permissions, encryption, two-factor codes, analytics, migrations and plain queries.
- QR images and image links.
