# Sweep server: ledger, withdrawals, deposits, billing and codes

The API server keeps users' USDC in custody. One balance column per user is changed by
request handlers, webhooks and background workers that run at the same time, and by
recovery after a crash. This project models those parts and proves what they keep. Money is
whole micro-USDC (the columns have six decimals), time is whole milliseconds, dates are UTC.

`dafny verify dfyconfig.toml` checks everything.

| file | part of the server |
|---|---|
| `WithdrawalProtocol` | one withdrawal row under the route, the reconciliation and delivery workers, the mint webhook, the admin and crashes, as a transition system |
| `WithdrawalRows`, `WithdrawalTable` | the tables with many rows, the code that writes them, and its relation to the protocol |
| `TransferPoller` | the loop that watches a direct transfer |
| `Destination`, `Chains` | chain table, fees, and how a request is stored and read back |
| `GatewayPosts`, `GreedySplit` | which burn intents are posted, and the split over several chains |
| `DepositRace`, `DepositHandlers` | the three writers that credit deposits: interleaved, and each on its own |
| `LedgerBook`, `Ledger` | balances and escrows: the transactions as values, and the code |
| `Calendar`, `Schedule`, `RecurringWorker`, `RecurringProtocol` | JavaScript dates (section 21.4.1 of ECMA-262), recurring transfers: one pass, and overlapping passes |
| `BillingDates`, `BillingProtocol`, `BillingWorker` | subscriptions: dates, one row under all its writers, the code |
| `Int32`, `Base32`, `Totp` | authenticator codes |
| `LoginChallenge`, `Otp` | sign-in challenges and email codes |
| `MapSums`, `Arithmetic`, `JsStrings`, `WithdrawalStatus`, `Wrappers` | shared definitions |

State machines (`Init`, `Can`, `Do`, `Runs`, `After`) carry the statements about every run
and every interleaving. Classes carry the code that changes state in place, each method
against a function of the old state; lemmas tie the two.

## What the code does not promise

These properties are false of the code. Each has a concrete run and an exact condition.

- A withdrawal is refunded at most once: not when the route's last UPDATE throws while the
  process lives. The row stays `processing`, a replay starts a second poller, and the first
  poller's `onFailure` is not guarded on the status (`WithdrawalProtocol.RefundedAtMostOnce`).
- It is never both refunded and delivered, nor delivered twice: not when two reconciliation
  passes overlap, nor when Gateway's answer cannot be read or names no transfer id. `postBatch`
  treats such an answer as a failure, though the burn may have been accepted
  (`WithdrawalProtocol.RefundedOrDelivered`, `WithdrawalProtocol.DeliveredAtMostOnce`,
  `GatewayPosts.PaysAtMostOnceExactly`).
- A failed or refunded row stays so: not when the route then writes its outcome
  (`WithdrawalProtocol.SettledStaysExactly`).
- A direct transfer that bounces is given back: not when nobody watches it any more
  (`WithdrawalProtocol.BouncedGivenBackExactly`).
- A COMPLETE processed to its end credits the deposit: not when its insert meets a pending row
  that was just written. A later COMPLETE credits it (`DepositRace.CompleteCredits`).
- Charges of a subscription are a full period apart, and none is made on a cancelled one: the
  billing worker does not look at the row again before it charges
  (`BillingProtocol.SpacedExactly`, `BillingProtocol.NeverChargesDeadExactly`).
- The billing worker gives up at the seventh failure since the last charge: not when the
  subscriber pays between its SELECT and its attempt. It then may give up right after a payment
  (`BillingProtocol.GivesUpAtSevenExactly`).
- A recurring transfer is sent once per scheduled instant: not when two passes overlap, and
  nothing keeps them apart (`RecurringProtocol.SentOnceExactly`).
- The claim routes claim: they assign TEXT to a numeric column, which PostgreSQL refuses, so
  they never do (`LedgerBook.RouteNeverClaims`).
- No authenticator code is accepted twice: not when a second `/2fa/enable` request that read
  the row early puts the step counter back (`Totp.NoReplayExactlyWithoutLateEnables`).
- A withdrawal's destination can be read back from its row: not with an unclosed parenthesis
  after a space (`Destination.ParseGivesBackExactly`).

Three more things that a reader of the code may not expect:

- The header comment of `otp.ts` speaks of about 50 guesses an hour; the code allows 55.
- Escrows written by the recurring worker have the status `confirmed`, which no claim looks
  for; they count as held.
- Checkout cancels the old subscription before it charges, outside the transaction.

## Assumptions

- Circle keeps one transaction per idempotency key. An answer with an error status means
  nothing was sent; no answer means unknown. Gateway's `failed` and `expired` mean never
  delivered, and the admin's outcome is true.
- When Circle rejects a replay with an error status, the earlier unanswered requests with the
  same key will not be carried out either. WithdrawalProtocol.RefundedOrDelivered rests on this.
- Single steps: deduct and pre-insert; restore and mark failed; select and update in the
  mint webhook; one subscription's charge and row update; each code or challenge call.
- Reconciliation touches a row only after its request handler has ended (ten minutes).
  Billing passes do not overlap, and activations of one user are serialised.
- Circle ids are always present and one-to-one with on-chain hashes; user and amount are
  fixed per id. Hashing of emails and HOTP are unknown functions.
- The clock does not run backwards between calls of the code and challenge modules.

## Model

| member | source | states |
|---|---|---|
| WithdrawalProtocol.EveryRun | artifacts/api-server/src/routes/withdraw.ts:188-338 | In every run from the start, with crashes, lost and unclear answers and overlapping workers, Circle and Gateway are never both paid, a completed row has a payment behind it, a failed or refunded row was given back, and the balance is the opening one less the gross amount plus the refunds |
| WithdrawalProtocol.RefundedAtMostOnce | artifacts/api-server/src/lib/gatewaySweep.ts:1088-1143 | The gross amount is refunded at most once in every run if and only if the route's last UPDATE cannot throw in a living process, or there is no reconciliation |
| WithdrawalProtocol.TwoPollersRefundTwice | artifacts/api-server/src/routes/withdraw.ts:228-246 | The run that breaks it: the outcome write throws, a replay starts a second poller, the transfer fails, both pollers pay back |
| WithdrawalProtocol.RefundedOrDelivered | artifacts/api-server/src/lib/withdrawalReconciliationWorker.ts:73-131 | No run both refunds and delivers if and only if reconciliation passes do not overlap and Gateway never accepts a batch with an answer that is taken for a failure |
| WithdrawalProtocol.OverlappingPassesRefundAndPay | artifacts/api-server/src/lib/withdrawalReconciliationWorker.ts:82-104 | The run that breaks it: one pass is answered with a rejection while the other pass's replay is accepted |
| WithdrawalProtocol.UnclearAnswerRefundsAndPays | artifacts/api-server/src/lib/gatewaySweep.ts:647-661 | The other run: a batch is accepted without a readable transfer id, the call fails, and the route refunds |
| WithdrawalProtocol.DeliveredAtMostOnce | artifacts/api-server/src/lib/gatewaySweep.ts:647-694 | No run delivers twice if and only if Gateway never answers that way |
| WithdrawalProtocol.UnclearAnswerPaysTwice | artifacts/api-server/src/lib/gatewaySweep.ts:683-697 | The run that breaks it: the next batch of the same call is accepted too |
| WithdrawalProtocol.GuardedRun | artifacts/api-server/src/lib/gatewayDeliveryWorker.ts:27-70 | From any state, workers, webhook and admin move the status up an acyclic graph, never leave failed or refunded, and any number of competing refunds gives the gross amount back exactly on settling |
| WithdrawalProtocol.SettledLeftExactly | artifacts/api-server/src/routes/withdraw.ts:328-338 | In every reachable state, a failed or refunded status is left exactly by the route's last UPDATE, and a refunded one by its poller's |
| WithdrawalProtocol.SettledStaysExactly | artifacts/api-server/src/routes/withdraw.ts:328-338 | Over every run, failed and refunded statuses last if and only if none of these steps is taken from them |
| WithdrawalProtocol.RouteOverwritesRefund | artifacts/api-server/src/routes/withdraw.ts:228-246 | A run in every deployment that takes one: the poller refunds, then the route writes completed |
| WithdrawalProtocol.BouncedGivenBackExactly | artifacts/api-server/src/lib/gatewaySweep.ts:1088-1143 | After any run, a bounced transfer without a refund can still be given back if and only if a poller is alive, a replay is outstanding, the request is unanswered, the row is held for review, or it is processing and there is reconciliation |
| WithdrawalProtocol.FailureAfterPoller | artifacts/api-server/src/lib/gatewaySweep.ts:1096-1098 | A run in every deployment after which it cannot: the transfer fails after the half hour its poller watches |
| WithdrawalProtocol.StrandedForever | artifacts/api-server/src/lib/gatewaySweep.ts:1142-1142 | From such a state no further action of any actor changes the balance |
| TransferPoller.PollTransferStatus | artifacts/api-server/src/lib/gatewaySweep.ts:1088-1143 | The failure callback runs exactly if FAILED or CANCELLED is the first final state seen, the delivery callback once, exactly if CONFIRMED or COMPLETE was seen before the loop ended |
| WithdrawalRows.WriteFollowsProtocol | artifacts/api-server/src/lib/withdrawalReconciliationWorker.ts:37-71 | Each write to the real tables, by the route, its poller, the workers, the webhook or the admin, is the protocol's step on that row and its owner's balance, and changes no other row and no other balance |
| WithdrawalRows.RefundKeepsOwed | artifacts/api-server/src/lib/withdrawalReconciliationWorker.ts:37-50 | A guarded refund leaves what a user is owed (balance plus withdrawals not given back) unchanged, for any number of attempts |
| WithdrawalRows.RestoreKeepsOwedExactly | artifacts/api-server/src/routes/withdraw.ts:235-239 | The unguarded restore pays the amount a second time exactly when the row was already given back |
| WithdrawalTable.Database.AtomicDeduct | artifacts/api-server/src/routes/withdraw.ts:42-54 | The amount is taken if and only if the user exists and the balance covers it |
| WithdrawalTable.Database.RefundWithdrawal | artifacts/api-server/src/lib/withdrawalReconciliationWorker.ts:37-50 | Status and balance change together, if and only if the row's status is one of those named |
| WithdrawalTable.Database.WithdrawCrypto | artifacts/api-server/src/routes/withdraw.ts:65-345 | For every answer of Circle or Gateway: which requests are refused and which lack the balance, the exact new row and balance, what was sent (the direct request, or a legal sequence of Gateway attempts), and a response whose id is the one in Circle's answer or the last attempt's; only a definite refusal gives the money back |
| WithdrawalTable.LostAnswerIsRepeated | artifacts/api-server/src/lib/withdrawalReconciliationWorker.ts:73-91 | After a lost answer the row that the handler left is stale ten minutes later, and its replay is exactly the handler's request, for every address without white space |
| WithdrawalTable.RouteKeepsOwed | artifacts/api-server/src/routes/withdraw.ts:188-338 | The handler moves the gross amount between balance and withdrawal; nobody is owed more or less afterwards |
| WithdrawalTable.HandlerIsRun | artifacts/api-server/src/routes/withdraw.ts:188-338 | An undisturbed handler is a run of the protocol that ends with the same status, balance and transfer id, for everything the world may have done that fits the answers: a lost answer, with the payment taken or not; a run without unclear answers if no attempt had one |
| WithdrawalTable.Database.RecoverDirect | artifacts/api-server/src/lib/withdrawalReconciliationWorker.ts:73-104 | What is asked of Circle, and the effect of a transaction id, no status, 5xx, 429, 409 and any other status on the row as it is now |
| WithdrawalTable.RecoveryIsRun | artifacts/api-server/src/lib/withdrawalReconciliationWorker.ts:73-104 | For every answer Circle can give, whether it has the transfer or not, the recovery of a row at rest is a run of the protocol that ends with the same row and balance; a lost answer, 5xx, 429 or 409 can come in any state, any other error status only if the key was never taken |
| WithdrawalTable.RecoveryHoldsMoney | artifacts/api-server/src/lib/withdrawalReconciliationWorker.ts:94-100 | After a lost answer, 5xx, 429 or 409 no balance changes, and the row stays as it was or is held for review |
| WithdrawalTable.RecoveryFollowsProtocol | artifacts/api-server/src/lib/withdrawalReconciliationWorker.ts:82-104 | For every answer the recovery's write is the write of the matching protocol action |
| WithdrawalTable.CheckFollowsProtocol | artifacts/api-server/src/lib/gatewayDeliveryWorker.ts:63-70 | So is the delivery worker's, with the transaction hash |
| WithdrawalTable.CheckIsRun | artifacts/api-server/src/lib/gatewayDeliveryWorker.ts:45-79 | A check whose answer is true of the burn is a run of the protocol that ends with the same row and balance |
| WithdrawalTable.Database.Reconcile | artifacts/api-server/src/lib/withdrawalReconciliationWorker.ts:106-131 | One pass recovers every row older than ten minutes and touches no other; for each, in status numbers, the request sent, and whether it is completed, left, held or failed; and it keeps what every user is owed |
| WithdrawalTable.Database.CheckGatewayDeliveries | artifacts/api-server/src/lib/gatewayDeliveryWorker.ts:45-79 | One pass completes exactly what Gateway confirms, with its hash, refunds exactly what it did not deliver and leaves the rest, does nothing while another pass runs, and keeps what every user is owed |
| WithdrawalTable.Database.HandleMintFinalized | artifacts/api-server/src/routes/gateway.ts:211-268 | Only a row with that transfer id changes: it becomes completed with the hash, and a failed, refunded or already complete row stays as it is; nobody's money changes |
| WithdrawalTable.Database.Resolve | artifacts/api-server/src/routes/admin.ts:406-426 | Only a row held for review is resolved, by the protocol's write: completed without payment, or refunded once |
| Destination.ParsedExactly | artifacts/api-server/src/lib/withdrawalReconciliationWorker.ts:53-58 | What parsing a stored destination gives, for every address and chain: nothing, or the trimmed address and the same chain |
| Destination.ParseGivesBackExactly | artifacts/api-server/src/routes/withdraw.ts:202-213 | It gives back the same address and chain if and only if the address is not empty, trimmed, on one line, and closes every parenthesis that follows a space |
| Destination.NeverAnotherTarget | artifacts/api-server/src/lib/withdrawalReconciliationWorker.ts:53-58 | A stored destination is never read back as another chain or another address |
| Destination.OpenParenthesisLost | artifacts/api-server/src/lib/withdrawalReconciliationWorker.ts:54-55 | An address that breaks the round trip on every chain |
| Destination.RecoveryRepeatsTheRequest | artifacts/api-server/src/lib/withdrawalReconciliationWorker.ts:73-87 | For every validated withdrawal to an address without white space, the replay has the first request's address, chain and net amount |
| Destination.NetAndFeeMakeGross | artifacts/api-server/src/lib/gatewayConfig.ts:216-233 | A validated withdrawal pays out a positive amount, and net plus fee is the gross amount |
| Destination.MinimumCoversFee | artifacts/api-server/src/lib/gatewayConfig.ts:70-224 | On every chain the minimum exceeds the fee, so the fee rule never refuses anything: a request is accepted if and only if the chain is known and switched on and the amount reaches its minimum |
| GatewayPosts.TryEachChain | artifacts/api-server/src/lib/gatewaySweep.ts:671-704 | Phase 1 for every sequence of answers: one attempt per chain with a wallet, in order, with the full amount, up to the first final answer; the balances learnt |
| GatewayPosts.GatewayWithdrawal | artifacts/api-server/src/lib/gatewaySweep.ts:522-755 | Which batches are posted and how the call ends, over both phases and every sequence of answers |
| GatewayPosts.NothingAfterFinal | artifacts/api-server/src/lib/gatewaySweep.ts:683-694 | No post follows one that was accepted or got no response, in either phase, and the call's result says which it was |
| GatewayPosts.PaysAtMostOnceExactly | artifacts/api-server/src/lib/gatewaySweep.ts:630-661 | At most one batch can pay, and none after a failed call, if and only if no response loses its body or accepts without a transfer id |
| GatewayPosts.AcceptedWithoutIdIsPostedAgain | artifacts/api-server/src/lib/gatewaySweep.ts:659-661 | With two source chains, a burn accepted without a transfer id is posted again on the next one |
| GatewayPosts.SourcesOnce | artifacts/api-server/src/lib/gatewaySweep.ts:560-563 | Each chain with a treasury wallet is tried once, the destination first; Solana only as the destination |
| GatewayPosts.LearntExactly | artifacts/api-server/src/lib/gatewaySweep.ts:698-703 | Phase 2 knows a balance if and only if the answer for that chain named it |
| GatewayPosts.EveryBatchPaysTheAmount | artifacts/api-server/src/lib/gatewaySweep.ts:684-737 | Every batch burns on distinct chains and pays the amount, in phase 2 less a residue under 0.001 USDC |
| GreedySplit.PlanSplit | artifacts/api-server/src/lib/gatewaySweep.ts:713-737 | Filter, sort and drain loop compute the greedy split of the amount |
| GreedySplit.SortedSorts | artifacts/api-server/src/lib/gatewaySweep.ts:713-716 | The order is a permutation of the usable chains, largest first |
| GreedySplit.SplitsExactly | artifacts/api-server/src/lib/gatewaySweep.ts:713-723 | The amount is split if and only if at least two chains have more than 0.251 USDC, and what these have beyond 0.25 USDC each covers it |
| GreedySplit.SplitIsSound | artifacts/api-server/src/lib/gatewaySweep.ts:727-737 | Distinct chains, from each between 0.001 and what it has beyond 0.25 USDC, in all the amount less a residue under 0.001 |
| GreedySplit.NoFewerChains | artifacts/api-server/src/lib/gatewaySweep.ts:713-737 | No choice of amounts from fewer chains comes within 0.001 USDC of the amount |
| DepositRace.CreditedAtMostOnce | artifacts/api-server/src/lib/depositIndexer.ts:259-414 | For every number, order, duplication and interleaving of indexer, webhook and Arc handlers: each deposit is credited at most once, and each user's credited total is the sum of their completed rows |
| DepositRace.CompleteCredits | artifacts/api-server/src/routes/deposit.ts:388-510 | After any run, a handler that works through a COMPLETE leaves the deposit credited exactly once, unless its insert lost to a row that is still pending |
| DepositRace.LateCompleteCredits | artifacts/api-server/src/lib/depositIndexer.ts:384-407 | A COMPLETE that starts once the table has a row for the deposit cannot lose |
| DepositRace.CompleteCanLose | artifacts/api-server/src/lib/depositIndexer.ts:384-407 | The run in which it loses: the webhook's pending row arrives between lookup and insert, both return, nothing is credited |
| DepositHandlers.Database.HandleDeposit | artifacts/api-server/src/lib/depositIndexer.ts:259-414 | Undisturbed: the deposit has one row with the hash, completed if and only if the notification was complete or the row was before; it sweeps if and only if it completed the row, and exactly then its user is credited its amount, once; nothing else changes |
| DepositHandlers.Database.InboundWebhook | artifacts/api-server/src/routes/deposit.ts:388-510 | The same for the webhook, with or without a hash |
| DepositHandlers.Database.ArcProcess | artifacts/api-server/src/lib/arcDepositWorker.ts:167-188 | The Arc worker adds a completed row and credits its amount exactly if there is no row for the deposit yet, and else changes nothing |
| LedgerBook.Conservation | artifacts/api-server/src/lib/ledger.ts:39-139 | Balances plus held escrows are the same after any sequence of sign-ups, sends, claims, charges and recurring transfers, and no balance is negative |
| LedgerBook.EscrowLife | artifacts/api-server/src/lib/recurringWorker.ts:63-78 | An escrow changes at most once, from pending to claimed, with its amount; a claimed one never changes, and a confirmed one is never claimed |
| LedgerBook.ClaimIsComplete | artifacts/api-server/src/lib/ledger.ts:128-139 | claimPendingEscrows leaves nothing pending for the email, and the user gains exactly what the escrows it claimed were worth |
| LedgerBook.SendPaysExactly | artifacts/api-server/src/routes/escrow.ts:214-264 | A send succeeds if and only if it is between 1 and 1,000,000 USDC, not to oneself and covered; then the sender loses the amount and the recipient gains it, or one new pending escrow holds it for the email, and nothing else changes |
| LedgerBook.ChargePaysExactly | artifacts/api-server/src/lib/ledger.ts:77-120 | A charge succeeds if and only if the amount is positive, covered, and not to oneself; then the subscriber pays whoever has the payout email, or else an escrow for it |
| LedgerBook.RecurringPaysExactly | artifacts/api-server/src/lib/recurringWorker.ts:56-79 | A recurring transfer succeeds if and only if it is covered; the amount always goes into a confirmed escrow |
| LedgerBook.RouteNeverClaims | artifacts/api-server/src/routes/escrow.ts:57-81 | The claim routes change nothing in any state; their transaction commits if and only if nothing is pending, and so they leave nothing pending if and only if there was nothing to gain |
| Ledger.Database.DebitBalance | artifacts/api-server/src/lib/ledger.ts:39-48 | Takes the amount, or fails and changes nothing, when invalid or not covered |
| Ledger.Database.TransferTx | artifacts/api-server/src/lib/ledger.ts:99-119 | Debit, credit and escrow row all happen, or nothing does; it succeeds if and only if the payer can pay and the recipient exists, and then the payer loses what the recipient or the new escrow gains |
| Ledger.Database.SendPlatform | artifacts/api-server/src/routes/escrow.ts:249-264 | The route's transaction is the ledger's send, with its limits, errors and payment, although the recipient was looked up earlier |
| Ledger.Database.ChargeSubscription | artifacts/api-server/src/lib/ledger.ts:77-120 | The charge is the ledger's charge: it is paid exactly if it can be, by the subscriber, to the owner of the payout email or into an escrow |
| Ledger.Database.ClaimPendingEscrows | artifacts/api-server/src/lib/ledger.ts:128-139 | Claims everything pending for the email and reports its total and number |
| Ledger.Database.ClaimByRouteTx | artifacts/api-server/src/routes/escrow.ts:109-132 | Marks, then rolls back on the TEXT assignment to a numeric column (lib/db/src/schema/users.ts:22) whenever something is pending |
| Ledger.AddUp | artifacts/api-server/src/lib/ledger.ts:135-135 | The running total over the claimed rows is their sum |
| Calendar.DayFromYearFormula | artifacts/api-server/src/lib/subscriptionBillingWorker.ts:26-32 | The first day of a year counted year by year is the closed formula of section 21.4.1 of ECMA-262 |
| Calendar.PartsOfMakeDay | artifacts/api-server/src/lib/subscriptionBillingWorker.ts:26-32 | Year, month and date of a day made from them are the same again, for every year before and after 1970 |
| Calendar.LeapDay2024 | artifacts/api-server/src/routes/recurring.ts:64-88 | Every instant of day 19,782 is a Thursday, 29 February 2024 |
| Calendar.NextMonthAdds | artifacts/api-server/src/lib/subscriptionBillingWorker.ts:29-29 | One month more adds exactly the length of the starting month, also when the day overflows |
| Calendar.NextYearAdds | artifacts/api-server/src/lib/subscriptionBillingWorker.ts:30-30 | One year more adds 365 or 366 days, by the February that lies ahead |
| BillingDates.AdvanceAdds | artifacts/api-server/src/lib/subscriptionBillingWorker.ts:26-32 | For every date and interval the exact number of days added; at least 7, 28 or 365 |
| BillingDates.AdvanceBillingDate | artifacts/api-server/src/lib/subscriptionBillingWorker.ts:26-32 | Changing the copied date in place gives that date, strictly later |
| Schedule.AdvanceIsNext | artifacts/api-server/src/lib/recurringWorker.ts:37-42 | From a scheduled instant, one advance leads to the very next scheduled instant, for all four intervals |
| Schedule.RunsStayOnSchedule | artifacts/api-server/src/routes/recurring.ts:82-88 | With the day-28 cap every later monthly run keeps its day of month and hour |
| Schedule.CatchUp | artifacts/api-server/src/lib/recurringWorker.ts:44-47 | The loop ends for every interval, with the first run after the missed one that lies after now |
| Schedule.CatchUpIsNext | artifacts/api-server/src/lib/recurringWorker.ts:44-47 | However many periods were missed, that is the first scheduled instant strictly after now |
| Schedule.FirstRun | artifacts/api-server/src/routes/recurring.ts:64-88 | The first run is the first scheduled instant strictly after now, for every interval, hour, weekday and day of month |
| RecurringWorker.Worker.ProcessTask | artifacts/api-server/src/lib/recurringWorker.ts:25-92 | One task ends, skips or sends once and moves to its next run; it sends if and only if it is due, not over, and covered by the balance seen and the present one, and then the amount moves from the sender into a confirmed escrow |
| RecurringWorker.Worker.ProcessRecurringTransfers | artifacts/api-server/src/lib/recurringWorker.ts:7-96 | One pass sends at most once per task however many periods were missed, each send moves its money, whoever should have sent and did not cannot pay it, nothing is left to send, and money is conserved |
| RecurringProtocol.SentOnceExactly | artifacts/api-server/src/lib/recurringWorker.ts:7-92 | In every run each scheduled instant is sent at most once if and only if passes do not overlap |
| RecurringProtocol.OverlappingPassesSendTwice | artifacts/api-server/src/lib/recurringWorker.ts:101-108 | The run that breaks it: two passes select the same instant |
| BillingProtocol.OneAttemptPerPass | artifacts/api-server/src/lib/subscriptionBillingWorker.ts:147-319 | However stale the selections, one pass attempts a subscription at most once, and the retry count fits the status |
| BillingProtocol.SpacedExactly | artifacts/api-server/src/lib/subscriptionBillingWorker.ts:251-290 | Successive charges are a full period apart in every run if and only if the subscriber cannot pay a row between a section's SELECT and its attempt; cancellations there do not matter |
| BillingProtocol.ChargesApart | artifacts/api-server/src/lib/subscriptionBillingWorker.ts:26-32 | Spaced charges are n times 7, 28 or 365 days apart |
| BillingProtocol.NeverChargesDeadExactly | artifacts/api-server/src/lib/subscriptionBillingWorker.ts:251-290 | A failed or cancelled subscription is never charged in any run if and only if none is cancelled or replaced between a SELECT and its attempt; manual payments there do not matter |
| BillingProtocol.StaleRetryChargesTwice | artifacts/api-server/src/routes/subscriptions.ts:959-974 | The run that breaks the spacing: a manual retry between the worker's SELECT and its attempt |
| BillingProtocol.StaleRetryRevives | artifacts/api-server/src/routes/subscriptions.ts:1459-1500 | The run that charges a cancelled subscription and makes it active again |
| BillingProtocol.GivingUpTakesSixDays | artifacts/api-server/src/lib/subscriptionBillingWorker.ts:251-319 | In every run, stale selections included, when the worker has given up, its last seven failed attempts lie at least a day apart, so the first is at least six days old |
| BillingProtocol.NoChargeOnTrial | artifacts/api-server/src/lib/subscriptionBillingWorker.ts:147-158 | In every run, under every interleaving, no charge counts from before the end of the trial |
| BillingProtocol.SelectsExactly | artifacts/api-server/src/lib/subscriptionBillingWorker.ts:147-290 | In every run a section selects the row if and only if by then its trial is over, a period has passed since its last charge, or a day since its last failure |
| BillingProtocol.GivesUpAtSevenExactly | artifacts/api-server/src/lib/subscriptionBillingWorker.ts:295-319 | The worker gives up at exactly the seventh failure since the last charge, in every run, if and only if the subscriber cannot pay between a SELECT and its attempt |
| BillingProtocol.StaleRetryGivesUp | artifacts/api-server/src/routes/subscriptions.ts:959-974 | The run that breaks it: the subscriber pays after six failures while the worker is at it, and is given up at once |
| BillingWorker.NotDueAgain | artifacts/api-server/src/lib/subscriptionBillingWorker.ts:147-290 | A row attempted in one section is not due in a later section of the same pass |
| BillingWorker.Worker.ProcessSubscriptionBilling | artifacts/api-server/src/lib/subscriptionBillingWorker.ts:106-319 | A row is attempted, once, if and only if it was overdue at the start and its subscriber exists and would not pay themselves; its new status, count and dates by outcome; nothing attempted is overdue afterwards unless the charge threw; and the ledger after exactly one charge per attempt, in order, with the outcome the ledger gives at its turn |
| BillingWorker.PaidInPass | artifacts/api-server/src/lib/subscriptionBillingWorker.ts:34-60 | Each attempt of a pass moves its amount from the subscriber to the owner of the payout email or an escrow if it ended as paid, and nothing otherwise |
| BillingWorker.Worker.RetryPastDue | artifacts/api-server/src/routes/subscriptions.ts:959-974 | Charges and reactivates, from now on, if and only if the row is past due and the charge goes through; else nothing changes |
| BillingWorker.Worker.StartSubscription | artifacts/api-server/src/routes/subscriptions.ts:1104-1154 | Cancel, charge unless on trial, and insert happen together or not at all; only subscriptions of this user to this merchant are cancelled, and the new one is on trial for its days or paid and active |
| BillingWorker.Worker.Checkout | artifacts/api-server/src/routes/pay.ts:107-170 | The checkout variant: when the charge fails, the old subscriptions are cancelled and there is no new one |
| Base32.Base32Encode | artifacts/api-server/src/lib/totp.ts:19-31 | The 32-bit accumulator, shifted and never masked, gives the unbounded bit-string definition of section 6 of RFC 4648, for every byte sequence |
| Base32.Base32Decode | artifacts/api-server/src/lib/totp.ts:33-46 | The same for decoding, for every text, with the characters whose upper case lies in the alphabet |
| Base32.PushBits | artifacts/api-server/src/lib/totp.ts:23-23 | Shifting in bits appends them to the pending ones although the shift overflows |
| Base32.RoundTrip | artifacts/api-server/src/lib/totp.ts:19-46 | Decoding an encoding gives back every byte sequence |
| Base32.FormattedRoundTrip | artifacts/api-server/src/lib/totp.ts:33-34 | So does decoding it in any letter case with characters outside the alphabet put in or left out anywhere |
| Base32.EncodedLength | artifacts/api-server/src/lib/totp.ts:19-31 | An encoding has the least number of letters that holds the bits; there is no padding |
| Int32.AndMasks | artifacts/api-server/src/lib/totp.ts:25-25 | And-ing with k ones is the remainder by 2 to the k |
| Totp.VerifyTotp | artifacts/api-server/src/lib/totp.ts:66-78 | A step is returned if and only if six digits were typed, they are the code of that step, it lies within one step of the clock and after the last one, and no earlier such step has this code |
| Totp.VerifiedExactly | artifacts/api-server/src/lib/totp.ts:66-78 | The same condition, both ways, for every HOTP function and every step |
| Totp.SpacesIgnored | artifacts/api-server/src/lib/totp.ts:67-67 | White space anywhere in what was typed makes no difference |
| Totp.UserTable.CheckUserTotp | artifacts/api-server/src/lib/two-factor.ts:20-29 | Accepts by one guarded UPDATE, on a row that may be out of date: only six digits that are the stored step's code, for a step later than any stored before; and refuses a right code only if its step is used up |
| Totp.StepsIncrease | artifacts/api-server/src/lib/two-factor.ts:20-29 | Under every interleaving of stale reads and guarded updates, accepted steps strictly increase while an enrolment lasts, and lie within one step of the clock |
| Totp.NoReplayExactlyWithoutLateEnables | artifacts/api-server/src/routes/security.ts:610-636 | That holds for every HOTP function if and only if no enable request writes after another one has enabled |
| Totp.LateEnableReplays | artifacts/api-server/src/routes/security.ts:625-636 | The run that breaks it: a second enable request puts the step counter back, and a used code is accepted again |
| LoginChallenge.Challenges.ReadLoginChallenge | artifacts/api-server/src/lib/two-factor.ts:45-55 | Answer and attempt map after one call, with the loop that prunes expired records |
| LoginChallenge.LivesFiveMinutes | artifacts/api-server/src/lib/two-factor.ts:31-48 | A signed token lives from its issue to the last full second before five minutes are over |
| LoginChallenge.ReadableExactly | artifacts/api-server/src/lib/two-factor.ts:45-67 | Over every run, a live challenge is readable if and only if it was granted fewer than five times and has not completed a sign-in, although records are pruned |
| LoginChallenge.AtMostFiveAttempts | artifacts/api-server/src/lib/two-factor.ts:45-55 | A challenge yields at most five attempts over its whole life |
| LoginChallenge.NoneOnceConsumed | artifacts/api-server/src/lib/two-factor.ts:65-67 | Once consumed, no later call is granted an attempt |
| Otp.OtpCodes.IssueOtp | artifacts/api-server/src/lib/otp.ts:35-55 | Throttled with the exact waiting time, or a new code with the older ones voided and the failures cleared |
| Otp.OtpCodes.FindOtp | artifacts/api-server/src/lib/otp.ts:82-111 | A match clears both limits; a miss counts, and at the limit voids the code; a locked key is not looked up |
| Otp.OtpCodes.VerifyOtp | artifacts/api-server/src/lib/otp.ts:122-125 | True if and only if the code was right; the code is then used up |
| Otp.AtMostOneUnusedCode | artifacts/api-server/src/lib/otp.ts:49-53 | In every run there is at most one unused code per account and purpose |
| Otp.ConsumedAtMostOnce | artifacts/api-server/src/lib/otp.ts:114-119 | In every run, with clean-ups, no code is consumed twice |
| Otp.LockedMeansVoid | artifacts/api-server/src/lib/otp.ts:101-107 | A locked key has no unused code left |
| Otp.RightMeansSent | artifacts/api-server/src/lib/otp.ts:86-94 | In every run, a guess is right only if this code was sent to this account for this purpose less than five minutes ago and never consumed |
| Otp.SentIsRight | artifacts/api-server/src/lib/otp.ts:35-111 | In every run, a code that was sent stays right for five minutes unless it is replaced, consumed or guessed at five times, whatever else happens and whatever is cleaned up |
| Otp.RightLiftsLimits | artifacts/api-server/src/lib/otp.ts:96-101 | A right guess lifts both limits of that account and purpose, and no other's |
| Otp.CodesApart | artifacts/api-server/src/lib/otp.ts:37-43 | In every run, two codes for a key are sent at least half a minute apart unless a right guess came between |
| Otp.AtMostTenCodes | artifacts/api-server/src/lib/otp.ts:37-47 | With no right guess, any window of one hour in any run sees at most ten codes |
| Otp.RetryAfterExactly | artifacts/api-server/src/lib/otp.ts:37-47 | After any run a request is refused if and only if a code was sent in the last half minute or ten in the last hour; the seconds it is told to wait are all needed, and then suffice unless ten codes still lie within the hour |
| Otp.AtMost55WrongGuesses | artifacts/api-server/src/lib/otp.ts:35-111 | With no right guess, any window of one hour in any run evaluates at most 55 wrong guesses |
| Otp.FiftyFiveAreReached | artifacts/api-server/src/lib/otp.ts:35-111 | A run that evaluates 55 wrong guesses within an hour |

## Left out

- Network, email, web pages, webhook signing and the calls to Circle, Gateway and Solana:
  only their possible answers are parameters.
- JWT signatures, bcrypt, HMAC, AES and passkeys: library cryptography.
- Floating point: amounts are re-normalised to six decimals, so they are integers here.
- Internal transfers to another platform user inside the withdraw route, bank withdrawals,
  transaction approval, the rate limiter and account deletion.
- `gateway.deposit.finalized` and wire deposits: the first writes audit rows without a credit,
  the second writes balance and row separately; their rows are not in the deposit sum.
- Treasury busy windows: advisory, with an await before the mark, and no mutual exclusion.
- Paging and the time cursor of the indexer, the sweep it triggers, and the resolution of
  wallets to users and chains.
- Errors thrown inside a worker's loop body by the database; the loops log and go on.
- `completedAt`, `deliveredAt`, `updatedAt`, payment history rows, emails and logs.
- Trial-ending reminders, passports, merchant limits and webhooks of subscriptions.
- Server restarts clear the maps of codes and challenges; a run ends there.
- Missing treasury configuration and unsupported destinations of Gateway: every chain in the
  table is supported and has a domain id, so those branches are not reached.
- Totp.VerifyTotp: the HMAC is an unknown function, and clocks before 1970 are not special.
- WithdrawalTable.Database.WithdrawCrypto: one uninterrupted call; crashes and interleavings
  are in WithdrawalProtocol.
- WithdrawalProtocol.UnclearAnswerPaysTwice: however many batches of one call get an unclear
  answer, the state keeps one of them.
- BillingProtocol.SpacedExactly: spacing counts from the `now` that the pass fixed at
  its start, which is what the next billing date is computed from.
- DepositHandlers.Database.InboundWebhook: only the on-chain inbound branch.
