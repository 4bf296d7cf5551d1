# Sovereign's money, messages and secrets, verified

Sovereign runs a small firm over one SQLite store: it bills jobs, watches two chains for USDC, keeps a
double-entry ledger, passes messages between sixteen agents, buys infrastructure only after a vote, keeps its
secrets in an encrypted file, and certifies trading strategies on out-of-sample bars. This project models those
five cores and proves what they promise together, over every input and every run.

Run `dafny verify dfyconfig.toml` to check all of it.

## How the model is built

`Tables.dfy` holds the database as one value (`Db`) and every statement the program issues as another (`Write`).
Each operation then appears twice where the source updates state in place: as a function on `Db`, about which the
theorems are proved, and as a method of a class that works on the mutable store statement by statement, whose
`ensures` equates what it leaves behind with that function.

What an operation does is stated a second time without its definition: the modules `Effects`, `Watching`, `BusEffects`,
`OperatorEffects`, `TickEffects`, `VaultEffects` and `Signals`, and the lemmas whose names end in `Exactly`, read it off
the tables, the disk or the price series, for every input and every branch.

| part | functions and theorems | classes on the store |
|---|---|---|
| settlement and billing | `Money`, `Ledger`, `Invoices`, `Suspense`, `Books`, `Effects`, `Settlement`, `TransferLogs`, `Firm`, `Watching` | `PaymentRecord`, `Billing`, `Watcher`, `Enterprise` |
| transactions and the balance cache | `Transactions` | `Persistence`, `BalanceCache` |
| messages, inbox pump, quorum | `Bus`, `BusEffects`, `Lifecycle`, `Inbox`, `Purchase`, `OperatorEffects`, `QuorumRuns`, `ReplyRuns`, `InboxFaults`, `ReplyFaults`, `PurchaseWitness`, `Heartbeat`, `TickEffects`, `Days` | `Delivery`, `Operators`, `Engine` |
| key rotation and migration | `Vault`, `VaultRuns`, `VaultEffects`, `Migration`, `Sessions` | `KeyCustody` |
| walk-forward certification | `Indicators`, `Strategies`, `WalkForward`, `Signals` | `WalkForward.WalkForward` (a loop) |

Money is an integer number of cents, chain amounts are six-decimal minor units (one cent is 10^4), time is an
integer number of seconds, and returns are exact reals with `log` and `sqrt` left uninterpreted. Network reads,
clocks, random ids and the outcome of every fallible statement are parameters: any pattern of the writes, COMMITs
and RELEASEs of a store may fail, a disk may die after any number of steps, an operator run may be cut between any two
of its commits, and another connection may commit between any two reads of the balance cache.

## What turned out to be conditional

These are promises the code keeps only under a condition. Each is stated with that condition as an equivalence, or
with the exact account of what happens instead.

- A nested `transaction()` whose RELEASE fails keeps its writes if the exception is caught inside the outer
  transaction (`Transactions.FailedReleaseSurvives`). `Transactions.OnlyKeptPersists` says which writes every program
  leaves, and `Transactions.AllOrNothingUnlessLeak` that they are the all-or-nothing ones if and only if no nested
  block with writes to keep fails on its RELEASE without an enclosing block taking them back. Operations on the store
  therefore leave nothing when they raise, except inside another transaction when a RELEASE failed
  (`Billing`, `Watcher`, `Delivery`).
- In live mode the attribution counters agree with the paid invoices if and only if no invoice worth anything was
  collected directly under a source that starts with "chain" (`Firm.AttributionAgreesWithBooks`; the
  other case is reachable by `Firm.BypassIsReachable`).
- Infrastructure payments are the noted purchase plus one for every operator run that died after paying and before
  noting it (`QuorumRuns.PaidOncePlusLost`). When operating cash covered two payments, a complete run in the same
  circumstances pays again (`Purchase.DyingAfterPayingPaysTwice`; reachable by `PurchaseWitness.PurchaseIsReachable`).
- At every point of a run of the bus in which only handlers reply, whatever faults its pumps meet, a request has at most
  one reply and is done or pruned once it has one, if and only if no acknowledgement fails right after its reply went out
  (`ReplyFaults.OneReplyExactly`); then none is ever answered twice (`ReplyFaults.OneReplyEverUnderFaults`). A request
  whose acknowledgement does fail, with an attempt left, is answered again when it is handled next
  (`InboxFaults.SlipRepliesTwice`; reachable by `InboxFaults.FailedAckRepliesTwice`).
- During a migration of the master key one backend can always recover the secrets, if and only if the run does not
  finish by deleting the key file it has just migrated to (`Migration.MigrationRecovers`; reachable by
  `Migration.DeletionLosesEverything`).
- A credential written through a backend that can read the vault, and then a read through the other one: the write is
  accepted, and the read destroys it exactly when the other backend has a key of its own that opens the staged blob
  (`Migration.LaterWriteIsLostExactlyWhenStale`). A migration cut between storing the new key and rewriting the file
  leaves such a disk. So after a migration cut anywhere, whatever happened to the vault before it, a write through the
  old backend is accepted and then lost at the first read through the new one exactly when the cut was at that point, or
  when an earlier migration had been cut there and this one did not get to its first step. In all other cases the read
  loses nothing, and once the file is rewritten the write is refused (`Migration.LaterWriteIsLostExactly`; the second
  case is reachable by `Migration.AbandonedStageLosesWrite`).
- Runs in which the key moves return the last write as long as the configuration follows the migrations
  (`Sessions.LiveBackendReturnsLastWrite`). For every readable vault and either backend of a cut migration that is
  exactly what it takes (`Sessions.ResumesExactly`): the old backend until the file is rewritten, the new one from the
  moment it has its key unless its key file was deleted, and the new one earlier only if both hold the same key, or if
  no step was taken and it already recovered the same payload.
- The kind pattern's `$` accepts a trailing newline; exactly the short kinds of that form have no reply kind
  (`Bus.ReplyKindExists`, `Bus.NewlineKindHasNoReply`).
- The running-peak drawdown is the worst fall over all pairs of bars if and only if no pair that ends below zero falls
  further (`Indicators.DrawdownIsWorstFallExactly`); so it is on every curve that is never negative
  (`Indicators.DrawdownIsWorstFall`) and is not on some that are (`Indicators.NegativeCurvesDiffer`). Bar by bar, the
  drawdown at a bar of value v under a running peak P is beaten exactly from earlier levels strictly between
  v(1 - 1e-12/P) + 1e-12 and P, when v is negative and P at least 1e-12 (`Indicators.DrawdownAtBarExactly`).

## Model

| member | source | states |
|---|---|---|
| Money.RoundsToNearest | sovereign/memory/store.py:22-51 | amounts round half away from zero to the nearest integer unit, so no integer is nearer |
| Money.CentsRoundTrip | sovereign/memory/store.py:32-51 | whole cents survive conversion to dollars and back, and one cent is 10^4 chain units |
| Ledger.PrefixesCancel | sovereign/memory/store.py:514-541 | every posting is double entry: the five account prefixes always sum to zero |
| Ledger.UnlistedIsZero | sovereign/memory/store.py:548-562 | an account the aggregation does not list has balance zero |
| Ledger.PrefixSumIsRead | sovereign/capital/invariants.py:62-63 | summing grouped balances of a prefix in any order equals reading the prefix off the rows |
| Ledger.ReadPost | sovereign/capital/ledger.py:37-51 | a posting moves each balance, flow and revenue reading by exactly what its row says, and a zero amount by nothing |
| Invoices.LeastFree | sovereign/capital/invoice.py:24-33 | the chosen amount is free, at or above the quote, and every cent between is taken; the search ends |
| Invoices.NeverAmbiguous | sovereign/capital/payments.py:552-584 | with distinct open amounts no chain amount matches two open invoices |
| Invoices.UpsertTotal | sovereign/memory/store.py:625-647 | an upsert changes open and paid totals by the new row less the row it replaces |
| Invoices.UpsertDistinct | sovereign/capital/invoice.py:36-69 | opening an invoice at a free amount keeps open amounts pairwise different |
| Suspense.ConsumeExact | sovereign/capital/payments.py:376-407 | consumption removes exactly min(amount, available) and leaves a suffix of the queue with at most its head reduced, tainted if anything was taken |
| Suspense.ConsumeAnyExact | sovereign/capital/payments.py:410-424 | consumption across chains takes exactly min(amount, total suspense), one chain first, and touches nothing but the lots |
| Suspense.SettlementKeepsHeld | sovereign/capital/payments.py:427-452 | reconciling or attributing a payment keeps suspense plus attributions minus reservations, and adds to one counter only |
| Suspense.SettlementExactly | sovereign/capital/payments.py:376-452 | an attributed amount is taken from the waiting lots, Ethereum's before Solana's and each queue from its head, whose rest is tainted; exactly what they lack is reserved; one counter rises by it |
| Suspense.ObserveKeepsBacked | sovereign/capital/payments.py:455-518 | a balance read keeps lots positive, ordered and within the balance; heights never fall; a rejected read changes nothing; the other chain is untouched |
| Suspense.ObserveExactly | sovereign/capital/payments.py:455-518 | a read counts exactly when its height is new or unknown; a rise releases min(rise, reserved) and queues the rest as one untainted lot under the next number; a fall removes min(fall, suspense), oldest first, and taints what is left; a first read is a baseline |
| Suspense.ObserveMovesHeld | sovereign/capital/payments.py:455-518 | an accepted read moves the conserved quantity by its inflow less what a withdrawal removed |
| Suspense.LoadIsIdentity | sovereign/capital/payments.py:184-233 | loading a stored record gives back every reachable record unchanged |
| Suspense.LoadExactly | sovereign/capital/payments.py:184-340 | a stored record is loaded with negative numbers raised to zero and empty lots dropped; without one the old balances become baselines with nothing waiting or attributed |
| Books.SoundBooksPass | sovereign/capital/invariants.py:53-140 | books that balance exactly pass the four ledger checks |
| Effects.ChecksExactly | sovereign/capital/invariants.py:53-140 | on any books each check passes exactly when its two sides agree to the cent, and the accounting identity exactly when unearned does |
| Books.IssueKeepsBooks | sovereign/capital/invoice.py:36-97 | billing a job, also one whose earlier invoice was voided, keeps receivable, unearned and open invoices equal |
| Effects.IssueExactly | sovereign/capital/invoice.py:36-97 | a billed job gets its invoice back; any other is billed at the first free cent from its quote, into receivable and unearned, with its job card; a negative quote is refused; nothing else changes |
| Effects.QuoteExactly | sovereign/capital/invoice.py:16-21 | a price of at least half a cent is quoted to the nearest cent; otherwise 450 dollars plus 900 times the fit |
| Effects.LookupExactly | sovereign/capital/invoice.py:106-110 | a reference finds the invoice of that id, or else of that job |
| Books.CollectKeepsBooks | sovereign/capital/invoice.py:100-151 | collecting an invoice keeps the books sound |
| Effects.CollectExactly | sovereign/capital/invoice.py:100-151 | an open invoice is paid under any source: its cents go from receivable to USDC and from unearned to its income account, its job is paid, no other invoice or account changes; live and outside the chain the record attributes it by hand, from suspense first; a closed one comes back unchanged |
| Books.CancelKeepsBooks | sovereign/capital/invoice.py:154-173 | voiding keeps the books sound and leaves paid invoices alone |
| Effects.CancelExactly | sovereign/capital/invoice.py:154-173 | an open invoice becomes void and its cents leave receivable and unearned; nothing else changes; a closed one comes back unchanged |
| Books.TreasuryKeepsBooks | sovereign/capital/treasury.py:22-72 | receiving, paying and allocating keep the books and never overdraw cash |
| Effects.TreasuryExactly | sovereign/capital/treasury.py:24-72 | receiving moves the amount into USDC and is refused only below zero; paying moves it out exactly when the two cash accounts cover it |
| Effects.TradingExactly | sovereign/capital/treasury.py:34-54 | allocation happens exactly when cash covers it and the revenue goal is met or a tenth of the cash would do; a mark moves its gain or loss between book and paper income |
| Effects.RevenueExactly | sovereign/capital/ledger.py:92-105 | a posting changes revenue by what it credits, less what it debits, to income accounts that neither end in `_paper` nor mention `unearned`, if it is recent enough |
| Settlement.CandidateSettles | sovereign/capital/payments.py:561-575 | a candidate of sound books settles through its id, exactly its amount, and the books stay sound |
| Settlement.MatchConserves | sovereign/capital/payments.py:552-584 | lots kept plus lots matched are the lots there were, and matched lots equal the invoices newly paid |
| Settlement.MatchReachesFixpoint | sovereign/capital/payments.py:552-584 | when matching returns no untainted lot has exactly one open invoice of its amount |
| Settlement.MatchSettlesExactly | sovereign/capital/payments.py:561-581 | every settled invoice was open at exactly its lot's amount, is paid at the end, and is settled once |
| Settlement.MatchDeals | sovereign/capital/payments.py:557-584 | survivors and matched lots together are the queue, each in its original order |
| Settlement.MatchChainConserves | sovereign/capital/payments.py:552-584 | matching one chain keeps the record backed and conserved, adds what it paid to the automatic counter, and leaves the other chain alone |
| TransferLogs.UnambiguousTransfer | sovereign/capital/payments.py:628-659 | a new transfer settles the one open invoice of its amount, or is recorded unmatched when there is none |
| TransferLogs.MemoDecides | sovereign/capital/payments.py:688-700 | among several invoices of one amount the memo decides exactly when it contains the memo of one of them and no other |
| TransferLogs.ProcessAllPreserves | sovereign/capital/payments.py:662-743 | any list of transfers keeps the books, the record and the log table, with each recorded settlement a paid invoice of that amount |
| TransferLogs.OnlyFirstSightingsCount | sovereign/memory/store.py:672-712 | processing a list equals processing the first sighting of each unseen (chain, txid) in it |
| TransferLogs.WindowsCompose | sovereign/capital/payments.py:662-743 | two polls at any two times equal one poll of both windows at any time, up to timestamps |
| TransferLogs.SecondPassChangesNothing | sovereign/capital/payments.py:662-743 | a later pass over transfers already seen changes nothing in the store and settles nothing |
| TransferLogs.OverlappingWindows | sovereign/capital/payments.py:662-743 | any sequence of overlapping windows, each polled at its own time, equals one pass over their first sightings, up to timestamps |
| TransferLogs.ClockOnlyStamps | sovereign/capital/payments.py:662-743 | the clock affects nothing but the timestamps of the posted rows |
| Firm.PollReachesFixpoint | sovereign/capital/payments.py:746-826 | after a balance poll no freshly read chain has a lot left that one open invoice matches |
| Watching.LogsComeFirst | sovereign/capital/payments.py:746-762 | a live poll that got logs records every transfer, returns invoices that are paid and moves the counter by exactly their sum, which is what was newly paid, and does not depend on the balances |
| Watching.BalancesOtherwise | sovereign/capital/payments.py:763-826 | a live poll without logs books each read and settles every freshly read queue to its fixpoint, each lot with an invoice that was open at its amount, labelled with its chain |
| Watching.SimulationWatchesNothing | sovereign/capital/payments.py:754-755 | in simulation a poll does nothing |
| Firm.StepKeepsSound | sovereign/capital/payments.py:427-826 | every operation, completed or rolled back, keeps books, record, log table, conservation and attribution, and no paid invoice changes |
| Firm.RunKeepsSound | sovereign/capital/invoice.py:36-173 | so does every run, and an invoice once paid is paid, unchanged, at its end |
| Firm.EveryAttributionIsBacked | sovereign/capital/payments.py:356-518 | in every run suspense plus attributions equal reservations plus accepted inflow less what withdrawals removed |
| Firm.BooksHoldOverRuns | sovereign/capital/invariants.py:53-140 | in every run all four checks pass, receivable equals unearned equals open invoices, cash is never negative, open amounts are distinct |
| Firm.AttributionAgreesWithBooks | sovereign/capital/payments.py:427-452 | in live runs attribution equals 10^4 times the paid cents if and only if no collection bypassed the watcher, and paid cents are the cents moved to USDC |
| Firm.OnlyWatcherMeansNoBypass | sovereign/capital/invoice.py:100-151 | when only the watcher uses chain sources nothing bypasses it |
| Firm.BypassIsReachable | sovereign/capital/invoice.py:100-151 | billing a job and collecting it directly under a chain source makes the counters disagree with the books |
| PaymentRecord.PaymentState.ConsumeChainSuspense | sovereign/capital/payments.py:376-407 | the loop that pops and reduces lots computes the specified consumption |
| PaymentRecord.PaymentState.ConsumeAnySuspense | sovereign/capital/payments.py:410-424 | the loop over chains computes the specified consumption |
| PaymentRecord.PaymentState.ObserveBalance | sovereign/capital/payments.py:455-518 | the in-place update of the record is the specified observation |
| Billing.Office.UniqueOpenAmount | sovereign/capital/invoice.py:24-33 | the counting loop ends at the least free amount |
| Billing.Office.Issue | sovereign/capital/invoice.py:36-97 | issue does what its specification says or raises; then it leaves the store as it was, or, nested under a failed RELEASE, all of its effect |
| Billing.Office.Collect | sovereign/capital/invoice.py:100-151 | so does collect, including the watcher's record |
| Billing.Office.Cancel | sovereign/capital/invoice.py:154-173 | so does void |
| Billing.Office.ReconcileManual | sovereign/capital/payments.py:427-452 | so does the reconciliation of the record, nested or not |
| Billing.Office.Pay | sovereign/capital/treasury.py:66-72 | pay spends exactly when cash covers it; it raises only at its single write |
| Billing.Office.AllocateTrading | sovereign/capital/treasury.py:34-54 | allocation respects cash and the tenth-of-cash cap before the goal |
| Billing.Office.Receive | sovereign/capital/treasury.py:56-64 | receiving posts the amount to USDC, or raises for a negative amount or a failed write and changes nothing |
| Watcher.PaymentWatcher.MatchQueue | sovereign/capital/payments.py:552-584 | the loop that settles and pops lots in place computes the specified matching |
| Watcher.PaymentWatcher.CollectFromLogs | sovereign/capital/payments.py:662-743 | one poll of the logs is one transaction: all of it or none, or, nested under a failed RELEASE, all of it with an exception |
| Watcher.PaymentWatcher.WatchBalances | sovereign/capital/payments.py:746-826 | so is one poll of the balances |
| Watcher.PaymentWatcher.WatchAndCollect | sovereign/capital/payments.py:746-826 | a poll takes logs when there are any and balances otherwise, in live mode only |
| Enterprise.Business.Work | sovereign/memory/store.py:294-341 | any sequence of billing, treasury and watcher calls on a store under any faults ends where the run ends in which exactly the calls hit by a failing statement did nothing, so the run invariant holds of the store |
| Persistence.Store.Enter | sovereign/memory/store.py:305-315 | entering opens a transaction or a savepoint under a name no other has |
| Persistence.Store.Unwind | sovereign/memory/store.py:318-327 | leaving by an exception restores what the block found and makes cached balances stale |
| Persistence.Store.Complete | sovereign/memory/store.py:328-341 | leaving normally commits or releases; when that statement fails the outer level rolls back and a nested one does not |
| Persistence.Store.Leave | sovereign/memory/store.py:316-341 | what an operation's transaction leaves for every way its body and its exit statement can end |
| Persistence.Store.Execute | sovereign/memory/store.py:343-352 | one statement takes effect, committed at once outside a transaction, or raises without effect |
| Persistence.ResolveFinds | sovereign/memory/store.py:312-323 | because names are unique a rollback resolves to the block's own savepoint |
| BalanceCache.LedgerBook.Post | sovereign/capital/ledger.py:37-51 | a post drops the cache and inserts one row, or raises without effect |
| BalanceCache.LedgerBook.Balances | sovereign/capital/ledger.py:53-74 | whatever the cache serves is the aggregation of the rows visible then; a result is stamped only if nobody committed around it |
| BalanceCache.LedgerBook.Attempt | sovereign/capital/ledger.py:61-70 | one pass stamps its result only when both version reads agree |
| Transactions.IntendedIsSurviving | sovereign/memory/store.py:299-304 | the all-or-nothing meaning applies exactly the writes of blocks that completed under ancestors that all completed |
| Transactions.OnlyKeptPersists | sovereign/memory/store.py:294-341 | the machine leaves exactly the kept writes, in order, for every program and database |
| Transactions.LeaksExactly | sovereign/memory/store.py:328-338 | the machine raises when it should, never keeps less than it should, and keeps more exactly when a nested block leaks |
| Transactions.AllOrNothingUnlessLeak | sovereign/memory/store.py:294-341 | kept and surviving writes are the same if and only if nothing leaks, and then every program has its all-or-nothing meaning |
| Transactions.FailedReleaseSurvives | sovereign/memory/store.py:329-338 | a program whose nested release fails and is caught keeps the block's write |
| Transactions.RaisingBlockLeavesNothing | sovereign/memory/store.py:318-340 | a block that raises leaves no trace whatever ran inside it; only a nested one that raises on its own exit leaves what its body kept |
| Transactions.Run | sovereign/memory/store.py:294-341 | the savepoint machine computes that meaning, returns to its depth and stack, and keeps the cache coherent |
| Bus.ReplyKindExists | sovereign/comms/bus.py:38-44 | an accepted kind has a reply kind, itself accepted, unless it is short and ends in a newline |
| Bus.NewlineKindHasNoReply | sovereign/comms/bus.py:25-44 | `ping` with a newline is accepted and has no reply kind |
| BusEffects.DerivedKindExactly | sovereign/comms/bus.py:38-44 | the derived kind is the request's with the suffix, cut to fit and never at a dot or underscore |
| Bus.LazyHidingIsEagerSweeping | sovereign/comms/bus.py:289-303 | an unlimited inbox before a sweep equals the one after; a limited one is a prefix of it |
| BusEffects.SendExactly | sovereign/comms/bus.py:170-228 | a letter is refused exactly for an unknown name, no recipient, a bad kind, a deadline not ahead or attempts outside one to ten; otherwise it becomes one queued row per recipient |
| BusEffects.DedupedExactly | sovereign/comms/bus.py:142-150 | every recipient is addressed once, in the order of first mention |
| BusEffects.ReplyExactly | sovereign/comms/bus.py:261-287 | exactly the recipient of a message that is no reply may reply; one row goes to the sender on the same thread and correlation |
| BusEffects.TransitionExactly | sovereign/comms/bus.py:305-393 | each transition raises exactly for an unknown id or a row in the wrong state, and otherwise moves that row alone |
| BusEffects.SweepExactly | sovereign/comms/bus.py:438-451 | a sweep expires exactly the queued rows past their deadline |
| BusEffects.PruneExactly | sovereign/comms/bus.py:395-425 | pruning removes exactly the old rows of the named settled states and may not name queued ones |
| BusEffects.InboxExactly | sovereign/comms/bus.py:289-303 | an inbox read shows exactly the timely rows among the agent's first queued ones, an overdue row still taking a place |
| Lifecycle.StepMoves | sovereign/comms/bus.py:305-451 | each operation moves each delivery only along the allowed arrows, with the attempts and error that go with them, and changes nothing else of it |
| Lifecycle.EveryMoveIsAllowed | sovereign/comms/bus.py:170-451 | so it is at every step of every run; a queued row always has an attempt left and is never deleted |
| Lifecycle.RunLifecycle | sovereign/comms/bus.py:170-451 | over every run done rows stay done until pruned, pruned ids never return, order and soundness are kept |
| Lifecycle.EveryDeliveryIsAccountedFor | sovereign/memory/store.py:763-879 | rows sent equal rows present plus rows pruned |
| Delivery.MessageBus.Send | sovereign/comms/bus.py:170-228 | a fan-out is inserted whole, refused, or undone by a failing write or COMMIT; exactly which is stated for every fault |
| Delivery.MessageBus.Reply | sovereign/comms/bus.py:261-287 | so is a reply, with a given or derived kind, on the request's thread and correlation |
| Delivery.MessageBus.Transition | sovereign/comms/bus.py:305-393 | fetch, check and write back are one transaction, with the same account of faults |
| Delivery.MessageBus.ExpireDue | sovereign/comms/bus.py:438-451 | the row-by-row loop expires every overdue queued row, or none, or, nested under a failed RELEASE, all with an exception |
| Delivery.MessageBus.ProcessInbox | sovereign/comms/handlers.py:84-130 | under every pattern of faults the pump loop does exactly what its specification under faults says, returns normally for every known agent, and leaves the effect of whole bus operations; without faults it is the plain pump |
| Inbox.SeatsAgreeWithAutoVotes | sovereign/governance/council.py:11-84 | the treasurer and risk policies are the legs of the older same-tick votes; the treasurer says yes exactly to what cash covers and autonomy or petty cash allows |
| Inbox.AnswerExactly | sovereign/comms/handlers.py:39-64 | pings are answered, notifications are not, and a seat answers a well-formed vote request with its policy; exactly the others raise |
| Inbox.HandleOneEffect | sovereign/comms/handlers.py:97-129 | handling one delivery gives it its outcome, sends at most its reply, touches no other row and no ledger row |
| Inbox.PumpEffect | sovereign/comms/handlers.py:84-130 | a pump gives every delivery it took its outcome, sends one reply for each it answered, and changes nothing else |
| Inbox.InboxIsTaken | sovereign/comms/bus.py:289-303 | an inbox read returns queued rows of that agent, none overdue, each once, within the limit |
| Inbox.SnapshotSettles | sovereign/comms/handlers.py:84-130 | every delivery a pump took ends done, dead, or queued with exactly one more attempt |
| Inbox.PumpKeepsOneReply | sovereign/comms/handlers.py:97-119 | pumping keeps at most one reply per request, and only done or pruned requests have one |
| InboxFaults.PumpEvolves | sovereign/comms/handlers.py:84-130 | whatever fails during a pump, what it did to the mail is a run of whole bus operations |
| InboxFaults.PumpKeepsOneReplyExactly | sovereign/comms/handlers.py:97-129 | a pump under any faults keeps at most one reply per request, each with its request done or pruned, if and only if no acknowledgement fails right after its reply |
| InboxFaults.SlipRepliesTwice | sovereign/comms/handlers.py:114-129 | a request whose acknowledgement failed after its reply, with an attempt left, is answered again |
| InboxFaults.FailedAckRepliesTwice | sovereign/comms/handlers.py:114-129 | a ping whose acknowledging write fails ends with two replies |
| ReplyFaults.OneReplyExactly | sovereign/comms/handlers.py:84-130 | in every run whose pumps meet any faults every request has at most one reply at every point, and is done or pruned once it has one, if and only if every pump acknowledged all it replied to |
| ReplyFaults.OneReplyEverUnderFaults | sovereign/comms/handlers.py:84-130 | then no request is answered at two points of the run, pruned replies included |
| ReplyRuns.OneReplyEver | sovereign/comms/handlers.py:84-130 | no request is answered twice at any two points of a run, even after its reply was pruned |
| Purchase.OperateCounts | sovereign/agents/roles.py:1257-1266 | one operator run pays and notes together unless it dies between; it pays only with all votes in, approval, cash and permission |
| Purchase.OperateMail | sovereign/agents/roles.py:1205-1234 | only opening a vote sends mail, and only when none is open |
| OperatorEffects.OpensExactly | sovereign/agents/roles.py:1205-1248 | with no vote open a complete run opens one exactly when there is a token or 100 dollars, nothing is bought, the bus is there and takes the request; then each seat is asked once, and otherwise nothing changes |
| OperatorEffects.WaitsExactly | sovereign/agents/roles.py:1250-1309 | an undecided vote stays open, with nothing changed, exactly while a seat is missing, a request is out, none has expired and there is time; otherwise it is dropped |
| OperatorEffects.ConcludesExactly | sovereign/agents/roles.py:1252-1268 | once all seats have answered the vote is over; with treasurer's and director's yes the votes are recorded, and the box is paid and noted if due, allowed and covered; nothing else changes |
| OperatorEffects.VoteExactly | sovereign/agents/roles.py:1252-1255 | a reply counts as yes exactly when its vote is the text yes, and as no when it is missing, empty, zero or false |
| OperatorEffects.RepliesInOrder | sovereign/comms/bus.py:427-429 | replies come in table order, so the last is the latest |
| Purchase.CountedVoteIsLastReply | sovereign/agents/roles.py:1252-1255 | a seat's counted vote is the last reply it sent the operator, and is missing only if it sent none |
| Purchase.PastDeadlineCloses | sovereign/agents/roles.py:1279-1288 | a complete operator run past the deadline closes the quorum whatever the seats did |
| Purchase.PaysNow | sovereign/agents/roles.py:1257-1266 | with all votes in, approval, permission and cash, a complete run pays exactly once |
| Purchase.DyingAfterPayingPaysTwice | sovereign/agents/roles.py:1260-1265 | a run that dies after paying and before noting it, with cash for two payments, is followed by a second payment |
| Operators.Operator.CountVotes | sovereign/agents/roles.py:1252-1255 | the loop over replies fills the votes as specified |
| Operators.Operator.Run | sovereign/agents/roles.py:1191-1309 | operator makes the commits of its plan in order, as far as the database lets it |
| QuorumRuns.StepKeepsDesk | sovereign/agents/roles.py:1191-1309 | every deed keeps mail sound, one reply per request, correlations of votes private to them, and payments accounted for |
| QuorumRuns.VotesAreCast | sovereign/comms/handlers.py:47-64 | every vote present at any point of a run was cast by an earlier pump of its seat answering the operator's request |
| QuorumRuns.PurchaseIsAuthorised | sovereign/agents/roles.py:1257-1266 | a payment implies an open quorum that all three seats answered and on which treasurer and director policies said yes |
| QuorumRuns.VotesMean | sovereign/governance/council.py:11-40 | at $6.00 the treasurer's answer is yes exactly when cash covers it, the director's when trailing revenue is positive, the risk seat's when the operator is not frozen and a quarter of the cash would do |
| QuorumRuns.PaidOncePlusLost | sovereign/agents/roles.py:1260-1264 | payments equal the noted purchase plus the runs that died in the gap; without those at most one |
| QuorumRuns.OpeningIsFresh | sovereign/agents/roles.py:1205-1234 | a vote opens only when none is open and nothing is bought, on a correlation no message carries |
| QuorumRuns.QuorumClosesByDeadline | sovereign/agents/roles.py:1279-1288 | every open quorum is closed for good by the first complete operator run past its deadline |
| PurchaseWitness.PurchaseIsReachable | sovereign/agents/roles.py:1191-1266 | from an empty store a run reaches a purchase; complete it pays once, dying in the gap it is followed by a second payment |
| Heartbeat.PumpedAtMostOnce | sovereign/engine/heartbeat.py:158-271 | no inbox is pumped twice in a tick |
| Heartbeat.PumpedExactlyWhenDue | sovereign/engine/heartbeat.py:158-271 | an agent nobody freezes is pumped once if it had mail at the start or has some after the roles, else never; a frozen one never |
| Heartbeat.TickIsRun | sovereign/engine/heartbeat.py:137-271 | a tick is a run of pumps, sweeps and role deeds |
| Heartbeat.OneAttemptPerTick | sovereign/engine/heartbeat.py:254-271 | no message gains more than one attempt in a tick |
| TickEffects.TickExactly | sovereign/engine/heartbeat.py:137-271 | a tick starts with exactly the due sweeps, and then every role not frozen by its turn does exactly its work in pipeline order |
| Days.TicksAreRun | sovereign/engine/heartbeat.py:137-271 | so is any number of ticks |
| Days.TicksExactly | sovereign/engine/heartbeat.py:137-271 | so over any number of ticks |
| Days.TicksAreSafe | sovereign/agents/roles.py:1191-1309 | over any number of ticks purchases are authorised and accounted for, no request is answered twice, and quorums close for good by their deadline |
| Engine.Clockwork.Step | sovereign/engine/heartbeat.py:137-271 | the loops over the pipeline and the late agents perform the specified tick |
| Vault.ReadSafe | sovereign/capital/wallet.py:203-247 | a read can stop after any disk step and still be recoverable; completed, it leaves the live key opening the file |
| Vault.PutSafe | sovereign/capital/wallet.py:322-330 | so can a credential write |
| Vault.RotateSafe | sovereign/capital/wallet.py:249-270 | so can a rotation |
| VaultEffects.ReadExactly | sovereign/capital/wallet.py:234-247 | a complete read returns the recoverable payload, or creates a fresh wallet without credentials, and leaves the live key opening the file |
| VaultEffects.UnreadableIsRefused | sovereign/capital/wallet.py:234-247 | a vault the backend cannot open is refused and its blobs stay |
| VaultEffects.PutExactly | sovereign/capital/wallet.py:322-330 | a complete write sets this credential, keeps all others and the wallet, and seals the file under the live key |
| VaultEffects.RotateExactly | sovereign/capital/wallet.py:249-270 | a complete rotation leaves a fresh key, the same payload sealed under it, no stage, and nothing the old key opens |
| VaultEffects.RotationNeedsWallet | sovereign/capital/wallet.py:249-270 | a payload without a wallet ends the rotation with the fresh key opening only the stage |
| VaultEffects.CutRotationKey | sovereign/capital/wallet.py:249-270 | a cut rotation has the old key exactly before its second step after the read, and the fresh one from then on |
| VaultRuns.NextReadReturnsLastWrite | sovereign/capital/wallet.py:203-330 | after any run with crashes anywhere the next read returns the last payload written |
| VaultRuns.RotationIsInvisible | sovereign/capital/wallet.py:249-270 | a read or rotation cut anywhere does not change what is recovered |
| VaultRuns.PutIsAtomic | sovereign/capital/wallet.py:322-330 | a credential write happens completely exactly when its last step did, and otherwise not at all |
| VaultRuns.CredentialSurvives | sovereign/capital/wallet.py:203-330 | a credential and the wallet survive every run that does not overwrite the credential |
| Migration.WhoRecovers | sovereign/capital/wallet.py:272-307 | after a migration cut at any step the old backend recovers the payload until the file is rewritten, the new one from the moment it has its key |
| VaultEffects.MigrateExactly | sovereign/capital/wallet.py:272-307 | a complete migration seals the payload under a fresh key of the new backend, which the old key does not open, and removes the key file exactly when asked to |
| Migration.MigrationRecovers | sovereign/capital/wallet.py:272-307 | during a migration a backend can recover the payload at every point, if and only if the new key file is not deleted at the end |
| Migration.DeletionLosesEverything | sovereign/capital/wallet.py:300-303 | migrating from the keyring to the key file with the old file to be deleted ends with neither backend reading anything |
| Migration.LaterWriteIsLostExactlyWhenStale | sovereign/capital/wallet.py:203-217 | in any vault: a credential written through one backend is destroyed by the next read through the other if and only if that one has a key of its own that opens the staged blob; otherwise the read fails, or returns it when the keys are the same, and it survives |
| Migration.LaterWriteIsLostExactly | sovereign/capital/wallet.py:203-307 | after a migration of any vault cut anywhere: a write through the old backend is refused once the file is rewritten; before, it is accepted, and lost to an older payload if and only if the cut fell between storing the key and rewriting the file, or an earlier migration was cut there and this one before its first step |
| Migration.AbandonedStageLosesWrite | sovereign/capital/wallet.py:203-307 | two abandoned migrations, a write through the key file and a read through the keyring lose the write |
| Sessions.LiveBackendReturnsLastWrite | sovereign/capital/wallet.py:203-330 | in every run of reads, writes, rotations and migrations with crashes anywhere, if the configuration follows the migrations, the next read returns the last payload written |
| Sessions.ResumesExactly | sovereign/capital/wallet.py:272-307 | after a cut migration of any readable vault, one of its two backends recovers the payload if and only if it is one the configuration may name: the old until the file is rewritten, the new from the moment it has its key unless its file was deleted, or earlier if it holds the same key or no step was taken and it already read the same payload |
| KeyCustody.Wallet.ReadUnlocked | sovereign/capital/wallet.py:234-247 | the read takes the specified steps one by one and returns the specified payload, keeping the wallet in memory |
| KeyCustody.Wallet.LoadOrCreate | sovereign/capital/wallet.py:219-232 | loading takes the same steps and ends as specified, refusing exactly a payload without a wallet when none is in memory for a promoted blob |
| KeyCustody.LoadExactly | sovereign/capital/wallet.py:219-232 | loading returns the recoverable payload or a new one; one without a wallet is refused unless it was just promoted and a wallet is in memory |
| KeyCustody.Wallet.PutCredential | sovereign/capital/wallet.py:322-330 | a credential write takes the specified steps up to the crash |
| KeyCustody.Wallet.RotateMasterKey | sovereign/capital/wallet.py:249-270 | so does a rotation |
| KeyCustody.Wallet.MigrateKeyStore | sovereign/capital/wallet.py:272-307 | so does a migration, and the live backend changes exactly when it succeeds |
| Indicators.RollingMeanIsWindowMean | sovereign/markets/stats.py:8-14 | the prefix-sum mean is the mean of each window, missing exactly where the window is |
| Signals.StdFromMoments | sovereign/markets/stats.py:17-24 | the sample deviation of a window is the root of its variance computed from sum and sum of squares |
| Indicators.DrawdownIsWorstFall | sovereign/markets/stats.py:27-30 | on a never-negative curve the one-pass drawdown is the worst relative fall over all pairs of bars, and some pair reaches it |
| Indicators.DrawdownIsWorstFallExactly | sovereign/markets/stats.py:27-30 | on any curve the two agree if and only if no pair that ends below zero falls further |
| Indicators.DrawdownAtBarExactly | sovereign/markets/stats.py:27-30 | on any curve the drawdown at a bar is beaten exactly by the earlier levels that lie strictly between a bound given by bar and peak and the peak, when the bar is negative |
| Indicators.NegativeCurvesDiffer | sovereign/markets/stats.py:27-30 | two curves on which they differ, from a lower positive bar and from a bar at zero |
| Indicators.CostOfTurns | sovereign/markets/stats.py:61-91 | a change of position costs half a round trip per unit, whatever its direction; so a flip costs a whole one |
| Indicators.TotalCost | sovereign/markets/stats.py:89-91 | over a series the costs add up to half a round trip per unit of turnover |
| Strategies.PositionsCausal | sovereign/markets/strategies.py:53-109 | the position decided at a bar depends only on prices up to that bar |
| Signals.DualMAExactly | sovereign/markets/strategies.py:77-83 | long exactly on warm bars whose fast mean exceeds the slow one, else flat |
| Signals.MomentumExactly | sovereign/markets/strategies.py:53-64 | on warm bars long exactly when the close exceeds the mean of its last closes, else flat or short, weighing the target over annualised volatility up to two |
| Signals.ReversionExactly | sovereign/markets/strategies.py:98-110 | on warm bars short above, long below and flat within `entry` deviations of the mean of the last returns |
| Strategies.NoLookAhead | sovereign/markets/stats.py:82-89 | series that agree before a bar give the same held position at it, for every strategy |
| Strategies.ZeroLagLooksAhead | sovereign/markets/stats.py:82-84 | without a lag the held position does depend on the bar's own close |
| WalkForward.WalkForward | sovereign/markets/data.py:147-199 | the loop lays exactly the out-of-sample bars of each window end to end; the error and too-short cases are as in the source |
| Signals.CertifiedBarExactly | sovereign/markets/stats.py:61-91 | a certified bar holds what was decided at the bar before and earns it times the relative price change, less half a round trip per unit moved |
| WalkForward.EveryBarOnce | sovereign/markets/data.py:184-193 | the windows evaluate each bar of their range exactly once and leave fewer than a window over |
| WalkForward.CertificationDoesNotLookAhead | sovereign/markets/data.py:184-193 | histories that agree before a bar give the same out-of-sample positions up to it and returns before it |

## Left out

- Books.Pay: checks cash and posts in two statements, as the source does, so another connection may spend between
  them; runs of the firm are sequential.
- Firm.Admissible: the accounts are those the firm's own callers pass: income is billed, income or equity received,
  expenses paid. `receive` and `pay` themselves accept any account name.
- QuorumRuns.AdmissibleDeed: only handlers send replies, and plain letters start their own correlation, as every sender
  in the repository does; the bus API would accept other values.
- Inbox.Answer: covers the three built-in handlers; their exception text is one constant, and a non-integral vote
  amount is not represented because amounts are cents.
- ReplyRuns.OneReplyEver: is about runs with the operator's quorum, whose pumps meet no fault; runs of the bus whose
  pumps do are in ReplyFaults.
- Enterprise.Business.Work: no other connection writes between its calls.
- The trading-book check of `verify_invariants`: the trader advances its mark without posting sub-cent changes, so it
  is no invariant.
- Event and audit rows, unmatched-payment notices, invoice markdown, reputation, rate caps and scheduler claims.
- Ids: sha1 invoice ids are an injective function, uuids are generation numbers with an arbitrary sort position.
- JSON encoding, payload size limits, and the type checks on arguments that Dafny's types already make.
- Balances filtered by date: they bypass the cache in the source and are read directly here.
- Deferred (`immediate=False`) transactions, a ROLLBACK statement that itself fails, thread locks, agent timeouts and
  abandoned workers.
- The network side of payments: JSON-RPC, confirmation heights and transfer parsing arrive as observations.
- Wallet generation, encryption itself, and browser sessions sealed with the vault key.
- Floating point: sums, means and returns are exact reals, so `nan_to_num` and overflow have nothing to do; a zero
  divisor in position sizing, which its floor excludes for any non-negative square root, counts as NaN.
- Summary metrics over the out-of-sample returns, live data sources and the certification thresholds.
