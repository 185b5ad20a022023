# Verification of the exchange's money-moving state machines

A Dafny model of the backend logic that moves money without one transaction around it, and proofs of
what every run of it keeps. `dafny verify dfyconfig.toml` checks the whole project.

- **Ledger** (`Ledger.dfy`): the double-entry validator, idempotent posting, balances.
- **Conversions** (`Conversions.dfy`, `ConversionInvariants.dfy`, `ConversionTheorems.dfy`, `QuoteTerms.dfy`,
  `ConvertWorker.dfy`): quote, reserve, claim, swap or reserve settlement, FILLED, FAILED, retries. Any number
  of conversions interleave step by step; a step may crash, a write may fail or commit without its answer
  arriving. Other parts of the exchange post to the same ledger.
- **Sweeps** (`Sweeps.dfy`, `SweepSafety.dfy`, `SweepTicks.dfy`, `SweepLimits.dfy`, `SweepWorker.dfy`,
  `SweepReferences.dfy`, `SweepCreation.dfy`, `SweepRecovery.dfy`): one sweep on EVM, Solana or Tron as a plan of writes and custody calls
  made from a stale snapshot, carried out one action at a time among crashes, lost writes, requeues, and webhooks
  whose transactions read the row at one moment and write it at another; where the guarantees end; the reference
  ids; the creation of sweeps from deposits; the recovery script's allocation.
- **Indexer** (`IndexerCursor.dfy`, `LogQueries.dfy`, `TrackedDeposits.dfy`, `DetectionFold.dfy`, `BatchPlans.dfy`,
  `BatchRows.dfy`, `BatchCursors.dfy`, `BatchScan.dfy`): the cursor under reorganisations and failing runs, bisected
  log queries, deposit detection and reconciliation, and grouped scans with their fallback.
- **Order book** (`PriceText.dfy`, `StableSorts.dfy`, `Orderbook.dfy`, `AnchorTotals.dfy`, `SteepLadders.dfy`,
  `OrderbookLadders.dfy`, `LadderLevels.dfy`, `Subscriptions.dfy`, `SubscriptionGateway.dfy`): expansion of
  cumulative quotes, rounding, rescaling, the seed; listeners, timers and websocket clients.
- **Circuit breaker** (`CircuitBreaker.dfy`): the retry loop of the Hyperliquid client.

Specifications are functions on values; the classes carry out the source's updates in place and are proved to
follow them. Answers of chains, custody, providers and the clock are inputs chosen by an adversary. Amounts are
exact: `real` for decimals, `nat` or `int` for raw units. Automatic induction is switched off on every lemma, so
each induction is written out.

## Where the code does less than it seems to

Each of these is a theorem about the model, beside the condition under which the expected property does hold.

- A stale quote is meant to be stored EXPIRED, but no quote ever is: the update is rolled back by the throw that
  follows it (`NoQuoteIsStoredExpired`, `ExpiryIsRolledBack`).
- A worker that throws after the swap has been sent treats it as not sent, whether its hash could not be stored, the
  row could not be loaded for a retry, or the receipt or the output could not be read: the user's funds are released
  while the swap stands (`LostHashReleasesFunds`; exactly when: `FundsAndSwapAreBothGone`, `StandingSwapIsReleased`;
  without such a fault in any run: `ReleaseIsSafeWithoutFaults`).
- A webhook writes back the status it read. If the transfer goes out in between, the sweep is sent twice
  (`StaleGasWebhookSendsTwice`; exactly when: `StaleWriteIsExact`).
- A sweep address found ineligible while its transfer is in flight, and eligible later, is swept twice
  (`EligibilityFlipSendsAgain`; exactly when: `IneligibleTickIsExact`).
- A sweep broadcast on its last attempt is never confirmed by the worker (`LastAttemptIsNeverConfirmed`; exactly
  when it can be: `ConfirmedByTicks`).
- A reverted gas top-up blocks a sweep, and the same run may send another top-up and take it out of BLOCKED again
  (`RevertedTopUpPlan`, `RevertedTopUpUnblocks`).
- Two blocks are not bisected, so a provider that answers single blocks only is never satisfied (`FetchUnderALimit`).
- With chunks of one block, an overlap and no start block a cursor falls back to 0 and jumps to the tip
  (`OneBlockChunksForget`; only then: `SafeConfigIsExact`).
- After the first sweep of an address later deposits are no longer detected from logs (`SweepingStopsDetection`), and
  a reconcile misses a difference it has recorded before (`RepeatedDifferenceIsMissed`; only then:
  `ReconcileCatchesUp`).
- A quote of more total and less size is skipped, and the asks shown cost less than it (`AsksCanFallShort`; if
  nothing is skipped they cover it, at every quote: `AsksAtEveryAnchor`).

## Model

| member | source | states |
|---|---|---|
| `Ledger.AssertBalancedLedgerEntries` | apps/api/src/modules/ledger/ledger.validator.ts:14-46 | the Map loop answers Balanced exactly for lists of two or more entries, all positive, with equal debits and credits per asset; otherwise it names the check that fails first, and the asset first seen among the unbalanced ones |
| `Ledger.LedgerService.PostTransaction` | apps/api/src/modules/ledger/ledger.service.ts:36-92 | a known idempotency key answers the earlier posting and adds nothing; a new one is added exactly when the validator accepts it |
| `Ledger.PostAllSound` | apps/api/src/modules/ledger/ledger.service.ts:40-53 | after any list of requests every posting is acceptable and no key occurs twice |
| `Ledger.SoundIsLevel` | apps/api/src/modules/ledger/ledger.validator.ts:27-45 | in a history of accepted postings the entries of an asset net to zero |
| `Ledger.BalancesPartitionTheAsset` | apps/api/src/modules/ledger/ledger.validator.ts:48-55 | the balances of a list of distinct accounts that covers an asset add up to the net of all its entries |
| `Ledger.AllBalancesSumToZero` | apps/api/src/modules/ledger/ledger.validator.ts:14-55 | over any history of requests the calculateAccountBalance results of all accounts of an asset sum to zero |
| `ConversionInvariants.FeeIsBelowGross` | apps/api/src/modules/convert/convert.service.ts:929-930 | with a fee of at most 300 basis points the fee of an output is non-negative and stays below it, so the user is paid |
| `QuoteTerms.QuoteIsAsAsked` | apps/api/src/modules/convert/convert.service.ts:1063-1078 | in any state a request is refused, or adds one active quote that repeats it: expected output and fee add up to the quoted output, the fee is its configured part, minimum and fee are the output less the slippage; nothing else changes |
| `QuoteTerms.QuotesKeepTheirTerms` | apps/api/src/modules/convert/convert.service.ts:611-637 | over every interleaving each quote has those terms of the very request that made it, whatever became of it |
| `QuoteTerms.ExecuteMakesTheRow` | apps/api/src/modules/convert/convert.service.ts:641-713 | over every interleaving execute makes a row iff it is admitted, the client id is new and the quote is the user's, active and not expired; the row carries the terms of its quote, which alone is consumed, and one posting is added; otherwise nothing changes |
| `QuoteTerms.ExecuteAnswers` | apps/api/src/modules/convert/convert.service.ts:641-723 | and its answer: the earlier conversion of the client id, or NotFound, QuoteExpired or NotAdmitted in that order; a quote taken or a posting refused never occurs |
| `QuoteTerms.RowsKeepTheirDeal` | apps/api/src/modules/convert/convert.service.ts:681-713 | over every interleaving each conversion keeps the terms of its quote, and on the reserve settles what the quote expects for its fee |
| `QuoteTerms.FilledPaysTheOutput` | apps/api/src/modules/convert/convert.service.ts:929-987 | over every interleaving the amount and the fee of a FILLED row add up to the output its quote asked for on the reserve, and on 1inch to the output of a receipt it was waiting for; the fee is the configured part of it |
| `ConversionInvariants.ExecuteKeeps` | apps/api/src/modules/convert/convert.service.ts:641-723 | execute keeps the invariant over conversions, quotes and ledger: its new row has its reservation, its quote backs no other row, a client id is used once |
| `ConversionInvariants.WorkKeepsControl` | apps/api/src/modules/convert/convert.service.ts:775-895 | every step of a worker keeps who may hold a row and when a swap may be handed over |
| `ConversionInvariants.SettleKeeps` | apps/api/src/modules/convert/convert.service.ts:938-987 | settleConversion, with or without its answer arriving, keeps the invariant |
| `ConversionInvariants.FailKeeps` | apps/api/src/modules/convert/convert.service.ts:989-1030 | failConversion keeps the invariant, and leaves FILLED rows alone |
| `ConversionInvariants.ReplayKeeps` | apps/api/src/modules/convert/convert.service.ts:641-1030 | the invariant holds over every interleaving of quotes, executions, claims, worker steps, settlements, failures and postings of the rest of the exchange |
| `ConversionTheorems.FillingIsTheTrade` | apps/api/src/modules/convert/convert.service.ts:938-987 | marking a row FILLED changes what it stands for on every account by exactly the trade posted for it |
| `ConversionTheorems.ReleasingIsTheRelease` | apps/api/src/modules/convert/convert.service.ts:1000-1027 | failing a row with release gives back exactly what was reserved for it |
| `ConversionTheorems.ReservingIsTheReserve` | apps/api/src/modules/convert/convert.service.ts:681-713 | a new row stands for exactly the reservation posted for it |
| `ConversionTheorems.ConversionsExplainTheLedger` | apps/api/src/modules/convert/convert.service.ts:641-1030 | over every interleaving the conversion postings on any account sum to what the rows of the conversions stand for |
| `ConversionTheorems.ClearingIsTheDifference` | apps/api/src/modules/convert/convert.service.ts:695-713 | the share of conversions in PROVIDER_CLEARING of an asset is the unreleased inputs out of it less the gross outputs of FILLED conversions into it; orders and withdrawals post to the same account |
| `ConversionTheorems.ExchangeBalancesSumToZero` | apps/api/src/modules/convert/convert.service.ts:641-1030 | over every interleaving all account balances of an asset sum to zero |
| `ConversionTheorems.PostingsMatchStatus` | apps/api/src/modules/convert/convert.service.ts:938-1030 | CONVERT_TRADE is posted iff FILLED, CONVERT_RELEASE only if FAILED, never both, and every quote backs at most one conversion |
| `ConversionTheorems.FilledPaysTheMinimum` | apps/api/src/modules/convert/convert.service.ts:929-935 | a FILLED conversion has paid at least its minimum, on both routes |
| `ConversionTheorems.AtMostOneSwap` | apps/api/src/modules/convert/convert.service.ts:800-895 | custody is handed at most one swap for a conversion over all retries, crashes and failed writes |
| `ConversionTheorems.ReleaseIsSafeWithoutFaults` | apps/api/src/modules/convert/convert.service.ts:786-797 | funds go back only if no swap reached the chain, or it reverted, or a read or write after the broadcast failed |
| `ConversionTheorems.StandingSwapIsReleased` | apps/api/src/modules/convert/convert.service.ts:786-936 | for every event in every state of an EXECUTING conversion whose swap has landed and not reverted: failing it afterwards releases the funds exactly if its worker threw while loading the retry, storing the hash, awaiting the receipt or settling, or the answer of the hash write was lost, or the receipt showed a revert |
| `ConversionTheorems.FundsAndSwapAreBothGone` | apps/api/src/modules/convert/convert.service.ts:786-936 | the same over all states of an EXECUTING conversion: its funds are released while its swap stands exactly after such a fault, or after a send that threw although the swap went out |
| `ConversionTheorems.LostHashReleasesFunds` | apps/api/src/modules/convert/convert.service.ts:868-882 | one case of it: in every state with an acknowledged swap whose hash is not stored, one failing write ends in FAILED with the funds released and the swap standing |
| `ConversionTheorems.NoQuoteIsStoredExpired` | apps/api/src/modules/convert/convert.service.ts:659-664 | over every interleaving no quote is ever stored EXPIRED, although the transaction writes it |
| `ConversionTheorems.ExpiryIsRolledBack` | apps/api/src/modules/convert/convert.service.ts:651-665 | the reason: the execute transaction writes EXPIRED exactly for a stale ACTIVE quote of the user, and one that throws stores nothing |
| `ConversionTheorems.SettlementRaisesLiabilities` | apps/api/src/modules/convert/convert.service.ts:938-970 | a committed settlement raises the USER_SPOT liabilities of its output asset by the net amount |
| `ConversionTheorems.ReserveStaysCovered` | apps/api/src/modules/convert/convert.service.ts:1410-1434 | after a reserve settlement the checked custody balance covers all liabilities exactly when they grew since the check by no more than its slack |
| `ConversionTheorems.CheckedReserveSettlesCovered` | apps/api/src/modules/convert/convert.service.ts:781-784 | from check to settlement through any events: if liabilities have not grown, the settlement leaves them covered |
| `ConvertWorker.ConvertService.Execute` | apps/api/src/modules/convert/convert.service.ts:641-723 | runs the execute transaction: commits or rolls it back, and returns the new or earlier conversion or exactly the refusal that applies first |
| `ConvertWorker.ConvertService.SettleConversion` | apps/api/src/modules/convert/convert.service.ts:938-987 | the settlement transaction, its lost answer and its failure |
| `ConvertWorker.ConvertService.FailConversion` | apps/api/src/modules/convert/convert.service.ts:989-1030 | the failure transaction with or without release |
| `ConvertWorker.ConvertService.SendOnce` | apps/api/src/modules/convert/convert.service.ts:847-882 | builds, hands over and stores one swap: where it ends, the hash stored, and how many swaps were handed over and reached the chain, for every failure between |
| `ConvertWorker.ConvertService.RecordHash` | apps/api/src/modules/convert/convert.service.ts:868-882 | the hash of an accepted swap is stored, or the write throws, or its answer is lost |
| `ConvertWorker.ConvertService.AwaitReceipt` | apps/api/src/modules/convert/convert.service.ts:883-936 | the receipt of a stored swap and the reconciliation of its output |
| `ConvertWorker.ConvertService.ProcessConversion` | apps/api/src/modules/convert/convert.service.ts:775-798 | a claimed row ends as its route says: FILLED, FAILED with or without release, or PENDING; a reserve row without an output is released |
| `ConvertWorker.RouteDecides` | apps/api/src/modules/convert/convert.service.ts:775-936 | when a claimed row is settled, paused, held or released, each iff: a reserve row is settled iff custody covers the liabilities with it, a 1inch row iff the receipt of its swap brings an output that leaves the minimum after the fee |
| `ConvertWorker.ConvertService.RunWorker` | apps/api/src/modules/convert/convert.service.ts:747-773 | at most one tick at a time; takes the oldest PENDING row, touches no other, and leaves a row finished as its route says |
| `ConvertWorker.FailureIsStored` | apps/api/src/modules/convert/convert.service.ts:989-1030 | in every run a written failure leaves FAILED, released iff asked for, and no trade; a FILLED row stays as it is |
| `ConvertWorker.SettlementIsStored` | apps/api/src/modules/convert/convert.service.ts:938-987 | in every run a written settlement leaves FILLED with its net amount, or, on the reserve, is refused by the ledger and on its way to release |
| `SweepSafety.PlanFollows` | apps/api/src/modules/deposits/deposit-sweep.service.ts:352-594 | whatever a run of processSweep reads, on every family, its writes and sends follow one protocol: count an attempt, then hand over, then record |
| `SweepSafety.OneAttemptPerRun` | apps/api/src/modules/deposits/deposit-sweep.service.ts:493-501 | one run adds at most one attempt and hands custody at most one transaction for it |
| `SweepSafety.SendsAreCounted` | apps/api/src/modules/deposits/deposit-sweep.service.ts:78-116 | over every run of a sweep of any family: custody calls <= attempts <= the maximum, and no kind and attempt are used twice |
| `SweepSafety.AtMostOneTransfer` | apps/api/src/modules/deposits/deposit-sweep.service.ts:419-594 | an EVM or Solana sweep is handed to custody at most once over ticks, crashes, throwing sends, lost writes, requeues and webhooks that read and write apart, unless an ineligible start or a stale webhook write opens it again; the amount is the one its row records, or for native EVM coins at most that |
| `SweepSafety.FixedEligibilitySendsOnce` | apps/api/src/modules/deposits/deposit-sweep.service.ts:119-145 | the same from two conditions on single events: eligibility does not change, and every webhook that writes either decides the status itself or is written before another attempt is counted (for a gas webhook on Solana also before the hash changes) |
| `SweepLimits.StaleWriteIsExact` | apps/api/src/modules/deposits/deposit-sweep.service.ts:216-266 | in every run with one transfer out, the write of an open webhook lets the sweep be sent a second time iff it leaves a row that is not spent and another attempt can send it |
| `SweepLimits.StaleGasWebhookSendsTwice` | apps/api/src/modules/deposits/deposit-sweep.service.ts:216-266 | a run from the start, with fixed eligibility, in which a gas webhook reads before the transfer and writes after it, and the token sweep goes out twice |
| `SweepLimits.EligibilityFlipSendsAgain` | apps/api/src/modules/deposits/deposit-sweep.service.ts:383-389 | in every state with an EVM transfer in flight, native or token: ineligible once, eligible again, and the sweep goes out a second time |
| `SweepLimits.IneligibleTickIsExact` | apps/api/src/modules/deposits/deposit-sweep.service.ts:383-389 | in every EVM run with one transfer out: a tick that finds the address ineligible lets the sweep be sent a second time iff it is still in flight and another attempt can send it |
| `SweepSafety.FaithfulReceiptConfirms` | apps/api/src/modules/deposits/deposit-sweep.service.ts:596-681 | in every run a tick that reads a broadcast EVM or Solana sweep with its hash confirms it from a deep receipt that shows what was handed to custody; without the hash it does nothing |
| `SweepSafety.AmountNeverGrows` | apps/api/src/modules/deposits/deposit-sweep.service.ts:507-561 | in every run of every family the recorded amount never grows, from any point of it on |
| `SweepSafety.NativeSendLeavesTheReserve` | apps/api/src/modules/deposits/deposit-sweep.service.ts:520-536 | a native EVM send stays within the recorded amount and leaves the gas reserve in the wallet |
| `SweepSafety.TokenSendsTheBalance` | apps/api/src/modules/deposits/deposit-sweep.service.ts:537-561 | a token send is the lesser of record and balance, recorded before it is handed over |
| `SweepLimits.ConfirmedByTicks` | apps/api/src/modules/deposits/deposit-sweep.service.ts:78-116 | in every run: ticks alone can confirm a broadcast sweep whose transfer a deep receipt shows iff an attempt is left and its hash is stored |
| `SweepLimits.LastAttemptIsNeverConfirmed` | apps/api/src/modules/deposits/deposit-sweep.service.ts:78-116 | a sweep broadcast on its last attempt is no longer read: without a webhook it stays BROADCASTED whatever else happens |
| `SweepLimits.RevertedTopUpPlan` | apps/api/src/modules/deposits/deposit-sweep.service.ts:447-474 | after a reverted top-up the run blocks the sweep first, and hands over another top-up iff some gas is there, not enough, and the rest is within the bound |
| `SweepLimits.RevertedTopUpUnblocks` | apps/api/src/modules/deposits/deposit-sweep.service.ts:447-474 | carried out undisturbed, that run ends FUNDING_GAS instead of BLOCKED iff the second top-up is sent and answered |
| `SweepWorker.SweepService.ProcessEvm` | apps/api/src/modules/deposits/deposit-sweep.service.ts:352-594 | the EVM path carries out exactly its plan |
| `SweepWorker.SweepService.ProcessSolana` | apps/api/src/modules/deposits/deposit-sweep.service.ts:1076-1223 | the Solana path carries out exactly its plan |
| `SweepWorker.SweepService.ProcessTron` | apps/api/src/modules/deposits/deposit-sweep.service.ts:703-880 | the Tron path carries out exactly its plan |
| `SweepWorker.SweepService.ConfirmSweep` | apps/api/src/modules/deposits/deposit-sweep.service.ts:596-681 | carries out exactly its plan, whose meaning BroadcastedTick and ConfirmedOnlyByProof fix |
| `SweepTicks.TickEnds` | apps/api/src/modules/deposits/deposit-sweep.service.ts:352-418 | an undisturbed tick over an unfinished sweep with an attempt left leaves the row and the custody calls its plan comes to; the following rows say which |
| `SweepTicks.BroadcastedTick` | apps/api/src/modules/deposits/deposit-sweep.service.ts:596-681 | a broadcast sweep with its hash ends CONFIRMED if the receipt proves it (the recorded amount moved to the treasury; on native EVM any amount), BLOCKED if a deep receipt does not, or if it shows a revert on EVM and Tron, and is left as it is otherwise |
| `SweepTicks.ConfirmedOnlyByProof` | apps/api/src/modules/deposits/deposit-sweep.service.ts:596-681 | over every run of every family, whatever webhooks write back: a sweep is CONFIRMED only if a tick that had selected it broadcast, with its hash, has read a receipt that proves it |
| `SweepTicks.RefusedTick` | apps/api/src/modules/deposits/deposit-sweep.service.ts:383-418 | an ineligible address or a missing configuration blocks the sweep and hands nothing over |
| `SweepTicks.ResumedTick` | apps/api/src/modules/deposits/deposit-sweep.service.ts:423-445 | a sweep left BROADCASTING takes the hash the provider knows, is blocked if there is nothing to ask about or the provider failed, and is left otherwise |
| `SweepTicks.EvmNativeTick` | apps/api/src/modules/deposits/deposit-sweep.service.ts:493-594 | a native EVM sweep sends the recorded amount or, if less is left above the gas reserve, all of that; where the answer leaves it |
| `SweepTicks.EvmTokenTick` | apps/api/src/modules/deposits/deposit-sweep.service.ts:447-594 | a token sweep without its gas is topped up by what is missing; with it the lesser of record and balance goes out and is recorded |
| `SweepTicks.FundingTick` | apps/api/src/modules/deposits/deposit-sweep.service.ts:447-491 | a token sweep waiting for its top-up: blocked if that reverted, sent on once the gas is there, topped up by what is missing while some is |
| `SweepTicks.SolanaTick` | apps/api/src/modules/deposits/deposit-sweep.service.ts:1167-1223 | the whole amount goes out once the wallet holds it and the fee, and until then it is topped up to exactly that |
| `SweepTicks.TronTick` | apps/api/src/modules/deposits/deposit-sweep.service.ts:761-880 | what a Tron sweep needs before it is sent, what it is topped up by, what it sends, and what the receipt of its top-up does |
| `SweepWorker.SweepService.TopUp` | apps/api/src/modules/deposits/deposit-sweep.service.ts:1259-1326 | reserves an attempt, hands over the gas and records it, within the configured bound |
| `SweepWorker.SweepService.RunOnce` | apps/api/src/modules/deposits/deposit-sweep.service.ts:70-117 | one tick over a sweep: finished rows are left alone, exhausted ones are blocked without a send, the others, requeued ones too, follow their plan |
| `SweepWorker.SweepService.ReadWebhook` | apps/api/src/modules/deposits/deposit-sweep.service.ts:216-236 | a webhook reads the row in its transaction; nothing changes yet |
| `SweepWorker.SweepService.WriteWebhook` | apps/api/src/modules/deposits/deposit-sweep.service.ts:236-266 | its write puts back the status, reason and missing hashes it has read, whatever the row has become |
| `SweepWorker.SweepService.HandleWebhook` | apps/api/src/modules/deposits/deposit-sweep.service.ts:197-279 | a webhook with nothing between its read and its write: a failure blocks, the hash of a transfer makes the row BROADCASTED, anything else leaves the status; amount and attempts stay |
| `SweepSafety.WorksCarry` | apps/api/src/modules/deposits/deposit-sweep.service.ts:352-594 | a plan carried out without disturbance is the run of its single steps |
| `SweepReferences.MatchIsThePattern` | apps/api/src/modules/deposits/deposit-sweep.service.ts:200-200 | the matcher recognises exactly the strings of its pattern and captures exactly kind and sweep id |
| `SweepReferences.BuiltIdsReadBack` | apps/api/src/modules/deposits/deposit-sweep.service.ts:1242-1249 | a built reference id reads back as its kind and sweep, exactly for non-empty ids without a colon |
| `SweepReferences.ReferenceIdsAreDistinct` | apps/api/src/modules/deposits/deposit-sweep.service.ts:1242-1249 | different sends have different reference ids |
| `SweepCreation.SweepCreator.GroupCandidates` | apps/api/src/modules/deposits/deposit-sweep.service.ts:281-306 | groups the oldest unswept credited deposits by address and asset, each in exactly one group |
| `SweepCreation.SweepCreator.JoinGroup` | apps/api/src/modules/deposits/deposit-sweep.service.ts:308-349 | the deposits of a group that are still unswept join one new sweep of their total |
| `SweepCreation.SweepCreator.CreatePendingSweeps` | apps/api/src/modules/deposits/deposit-sweep.service.ts:281-350 | every candidate with an eligible address whose group commits joins one new sweep; groups refused by a unique key are passed over, another error ends the call; nothing else changes, and each sweep was created with the sum of its deposits |
| `SweepCreation.SweepCreator.AmountsAreTheDeposits` | apps/api/src/modules/deposits/deposit-sweep.service.ts:321-345 | the amounts stored with the sweeps add up to the deposits that have joined one: none counted twice, none lost |
| `SweepCreation.SweepCreator.RecordDeposit` | apps/api/src/modules/deposits/deposits.service.ts:1261-1292 | a deposit that arrives changes the worth of no sweep |
| `IndexerCursor.ContractIndexer.ScanConfiguredAsset` | apps/api/src/modules/deposits/deposit-indexer.service.ts:197-263 | one run over the fields, failing before or after any of its writes; what it scans is OneRunScans |
| `IndexerCursor.OneRunScans` | apps/api/src/modules/deposits/deposit-indexer.service.ts:197-263 | a run scans a block iff it does not fail at once and the chunk ends short of the overlap of the tip and the block lies there, or it gets past the tip and the block lies in the chunk; the cursor moves, to the end of the chunk, iff it completes |
| `IndexerCursor.TipIsSeen` | apps/api/src/modules/deposits/deposit-indexer.service.ts:229-243 | after every complete run of any history the cursor is within the overlap of the tip, or the run has scanned every block from there to the tip |
| `IndexerCursor.OriginIsTheStart` | apps/api/src/modules/deposits/deposit-indexer.service.ts:1764-1787 | the first complete run starts an overlap below the configured start, or below the tip it sees, and that stays where the scanned blocks begin |
| `IndexerCursor.CursorIsSafe` | apps/api/src/modules/deposits/deposit-indexer.service.ts:197-263 | for any tips and failures every block from the first scan to the cursor has been scanned, and every block below the overlap was last scanned deeper than the overlap |
| `IndexerCursor.SafeConfigIsExact` | apps/api/src/modules/deposits/deposit-indexer.service.ts:1764-1787 | that holds over every run iff chunks have two blocks or more, or a start block is configured, or there is no overlap |
| `IndexerCursor.NothingIsLost` | apps/api/src/modules/deposits/deposit-indexer.service.ts:1764-1787 | if no reorganisation is deeper than the overlap, what the final chain holds below it has been read |
| `IndexerCursor.ReachesTheTip` | apps/api/src/modules/deposits/deposit-indexer.service.ts:1750-1787 | a cursor behind a fixed tip reaches it iff a chunk outruns the overlap, and then within as many runs as blocks are missing |
| `IndexerCursor.OneBlockChunksForget` | apps/api/src/modules/deposits/deposit-indexer.service.ts:1764-1787 | in every other configuration two completed runs from the start are enough: the cursor is left at 0, taken for unset, and a block is passed unread |
| `LogQueries.FetchIsExact` | apps/api/src/modules/deposits/deposit-indexer.service.ts:1100-1129 | however often a range is bisected, a successful fetch returns exactly its logs, in order |
| `LogQueries.EachBlockOnce` | apps/api/src/modules/deposits/deposit-indexer.service.ts:1100-1129 | a successful fetch has had every block of the range answered once and no other |
| `LogQueries.FetchSucceeds` | apps/api/src/modules/deposits/deposit-indexer.service.ts:1100-1129 | it succeeds for every provider that refuses nothing but ranges of more than two blocks |
| `LogQueries.FetchUnderALimit` | apps/api/src/modules/deposits/deposit-indexer.service.ts:1112-1120 | behind a limit on the length it succeeds iff the limit is two blocks or more, or the range fits: two blocks are not bisected |
| `LogQueries.BlockRanges` | apps/api/src/modules/deposits/deposit-indexer.service.ts:1088-1098 | the ranges follow each other over the whole interval, none empty, none too long |
| `LogQueries.RangesAreTheWhole` | apps/api/src/modules/deposits/deposit-indexer.service.ts:646-667 | the logs of the ranges, one after another, are the logs of the interval |
| `LogQueries.BatchesAdd` | apps/api/src/modules/deposits/deposit-indexer.service.ts:651-667 | batches of different addresses find together what one query for all of them would |
| `LogQueries.ScanIsComplete` | apps/api/src/modules/deposits/deposit-indexer.service.ts:651-667 | with no address listed twice, every log of every (address, block) pair arrives exactly once |
| `LogQueries.OneOfScan` | apps/api/src/modules/deposits/deposit-indexer.service.ts:651-667 | whatever else a scan asks for, the logs of one contract to one address arrive in chain order, exactly those of asking for them alone |
| `LogQueries.ScanLogs` | apps/api/src/modules/deposits/deposit-indexer.service.ts:640-667 | the loops over batches and ranges return the logs in that order, and succeed for providers that answer pairs of blocks |
| `DetectionFold.TakeAllIsFold` | apps/api/src/modules/deposits/deposit-indexer.service.ts:668-759 | recording the logs of a scan one after another, each under the skip rules of lines 709-731, leaves for every contract and address what folding over its own logs leaves |
| `DetectionFold.DetectRecords` | apps/api/src/modules/deposits/deposit-indexer.service.ts:709-759 | a log is recorded unless it goes to a personal address and is internal or finds no room; no key gets a second row, other rows stay |
| `DetectionFold.AgainChangesNothing` | apps/api/src/modules/deposits/deposit-indexer.service.ts:709-753 | a scan cut short and another of the same logs leave the rows of the longer one, although whether a log is skipped depends on what is tracked |
| `BatchPlans.BuildPlans` | apps/api/src/modules/deposits/deposit-indexer.service.ts:310-350 | the plans of a network: a tip plan where the chunk does not come near the tip, and a cursor plan for each contract |
| `BatchPlans.PlannedBlocks` | apps/api/src/modules/deposits/deposit-indexer.service.ts:310-350 | a block is planned for a contract iff it lies in its chunk, or from the overlap of the tip on while the chunk ends short of it; exactly the chunk moves its cursor |
| `BatchPlans.GroupPlans` | apps/api/src/modules/deposits/deposit-indexer.service.ts:352-363 | plans are grouped by range and kind, each in exactly one group, and groups stand in the order their keys first appear |
| `BatchPlans.TipIsVisitedFirst` | apps/api/src/modules/deposits/deposit-indexer.service.ts:328-365 | the tip group of a contract is visited before the group of its cursor |
| `BatchRows.OwnSubsequence` | apps/api/src/modules/deposits/deposit-indexer.service.ts:650-672 | in the scan of a group the logs of each contract and address are those of its own scan, in the same order |
| `BatchRows.ScanAdvances` | apps/api/src/modules/deposits/deposit-indexer.service.ts:668-759 | a scan of a group, cut anywhere, has taken each of its contracts through a first part of its own logs, all of them if it completed |
| `BatchRows.AdvancedTwice` | apps/api/src/modules/deposits/deposit-indexer.service.ts:366-411 | a cut scan followed by another, complete or not, is one scan of the longer part |
| `BatchRows.BatchedIsAlone` | apps/api/src/modules/deposits/deposit-indexer.service.ts:365-411 | if the plans of a contract were reached and completed, together or alone, its rows are exactly those of scanning it alone plan after plan |
| `BatchScan.BatchScanner.RecordLogs` | apps/api/src/modules/deposits/deposit-indexer.service.ts:668-759 | the loop over the logs: matched to their contract, skipped by the tracked sum and the balance, or recorded |
| `BatchScan.BatchScanner.ScanGroup` | apps/api/src/modules/deposits/deposit-indexer.service.ts:366-411 | a group is scanned together or, when that fails, contract by contract; completed plans have taken all their logs, the others a first part, other contracts nothing |
| `BatchScan.BatchScanner.AdvanceCursors` | apps/api/src/modules/deposits/deposit-indexer.service.ts:413-428 | the cursors of completed plans that ask for it move to the end of the range, until a write throws; no other moves |
| `BatchScan.BatchScanner.ScanConfiguredErc20ContractGroups` | apps/api/src/modules/deposits/deposit-indexer.service.ts:302-437 | whatever scans fail, every contract is left with the rows and the cursor of being scanned alone; a cursor that has moved has all its plans behind it; the run stops iff a cursor write throws |
| `TrackedDeposits.NothingIsInvented` | apps/api/src/modules/deposits/deposit-indexer.service.ts:1219-1405 | for any order of transfers, detections, sweeps and reconciles the tracked total stays within what was received, and within a balance the address once had |
| `TrackedDeposits.DetectionIsExact` | apps/api/src/modules/deposits/deposit-indexer.service.ts:709-753 | in every run a transfer, detected for the first time or again, is recorded iff it is not internal and the balance has room for it beside what is tracked; it counts once, or again when an uncounted deposit is linked anew |
| `TrackedDeposits.NewTransferIsRecorded` | apps/api/src/modules/deposits/deposit-indexer.service.ts:1352-1380 | a new transfer is recorded iff nothing is tracked yet or the balance before it covers what is |
| `TrackedDeposits.SweepingStopsDetection` | apps/api/src/modules/deposits/deposit-indexer.service.ts:1352-1380 | once everything received is tracked, a later transfer is recorded iff nothing has been swept |
| `TrackedDeposits.ReconcileCatchesUp` | apps/api/src/modules/deposits/deposit-indexer.service.ts:1249-1287 | a reconcile brings the records up to the balance iff the same difference was not recorded before |
| `TrackedDeposits.RepeatedDifferenceIsMissed` | apps/api/src/modules/deposits/deposit-indexer.service.ts:1249-1287 | a run, for any amount, that ends in such a difference: the deposit is never recorded |
| `TrackedDeposits.DepositTracker.DetectTransfer` | apps/api/src/modules/deposits/deposit-indexer.service.ts:709-753 | one decoded log: skipped, recorded or known, as the tracked total and the balance say |
| `TrackedDeposits.DepositTracker.ReconcileBalance` | apps/api/src/modules/deposits/deposit-indexer.service.ts:1237-1283 | one balance: the missing difference is recorded under its own key |
| `TrackedDeposits.DepositTracker.Record` | apps/api/src/modules/deposits/deposits.service.ts:1096-1160 | one record for an idempotency key; a later write can only change its status |
| `PriceText.FormatIsMonotone` | apps/api/src/modules/convert/convert-orderbook.service.ts:561-571 | a higher price never shows as a lower one, although precision changes at 0.9, 1.1 and 1000 |
| `PriceText.FormatIsNearest` | apps/api/src/modules/convert/convert-orderbook.service.ts:561-571 | a shown price is a multiple of the unit of its range and within half of it |
| `Orderbook.ExpandIsABook` | apps/api/src/modules/convert/convert-orderbook.service.ts:499-534 | the levels have worsening prices and growing totals, and their sizes sum exactly to the accepted segments |
| `Orderbook.OffsetsCancel` | apps/api/src/modules/convert/convert-orderbook.service.ts:512-519 | the eight micro-offsets of a segment cancel |
| `LadderLevels.LevelsOfAQuote` | apps/api/src/modules/convert/convert-orderbook.service.ts:499-534 | each quote that adds size and total makes exactly eight levels of an eighth of its size, spaced by two hundred-thousandths around its average, each price the best no better than that and the level before, each cost added to the total; any other quote makes none |
| `LadderLevels.ShownIsNear` | apps/api/src/modules/convert/convert-orderbook.service.ts:527-531 | what is shown of a level is the nearest unit: its price, eight digits of size, the cent of the total |
| `AnchorTotals.ExpandIsConservative` | apps/api/src/modules/convert/convert-orderbook.service.ts:506-534 | the running cost of the asks is at least, the proceeds of the bids at most, the quoted total of the segments accepted so far |
| `AnchorTotals.AcceptedIsQuoted` | apps/api/src/modules/convert/convert-orderbook.service.ts:499-504 | the accepted segments add up to the last cumulative quote iff no segment with a positive total was skipped, and never exceed it |
| `AnchorTotals.BidsNeverPromiseMore` | apps/api/src/modules/convert/convert-orderbook.service.ts:483-534 | the bids never bring more than the cumulative quote |
| `AnchorTotals.AsksCoverWhatIsNotSkipped` | apps/api/src/modules/convert/convert-orderbook.service.ts:483-534 | if nothing was skipped the asks cost at least the cumulative quote |
| `AnchorTotals.ExpandGrows` | apps/api/src/modules/convert/convert-orderbook.service.ts:499-534 | the levels of the first anchors are the first levels of the whole ladder |
| `AnchorTotals.BidsAtEveryAnchor` | apps/api/src/modules/convert/convert-orderbook.service.ts:499-534 | so at every anchor of the ladder the bids so far bring at most its cumulative total |
| `AnchorTotals.AsksAtEveryAnchor` | apps/api/src/modules/convert/convert-orderbook.service.ts:499-534 | and the asks so far cost at least that if nothing was skipped up to it |
| `SteepLadders.SteepIsExact` | apps/api/src/modules/convert/convert-orderbook.service.ts:506-534 | where no price is clamped the running total is the accepted total exactly |
| `SteepLadders.SteepAsksCover` | apps/api/src/modules/convert/convert-orderbook.service.ts:499-534 | there the asks cover the cumulative quote iff no quoted segment was skipped |
| `SteepLadders.AsksCanFallShort` | apps/api/src/modules/convert/convert-orderbook.service.ts:499-504 | any second quote of more total and half the size is skipped and leaves the asks short of it |
| `StableSorts.SortSorts` | apps/api/src/modules/convert/convert-orderbook.service.ts:487-489 | the sort orders by key |
| `StableSorts.SortPermutes` | apps/api/src/modules/convert/convert-orderbook.service.ts:487-489 | it loses and adds nothing |
| `StableSorts.SortIsStable` | apps/api/src/modules/convert/convert-orderbook.service.ts:487-489 | entries with equal keys keep their order |
| `OrderbookLadders.ExpandCumulativeAnchors` | apps/api/src/modules/convert/convert-orderbook.service.ts:483-539 | the loops of the source produce the rounded levels of the sorted anchors, in order, with totals that are conservative at every quote |
| `OrderbookLadders.QuotedIsTheLargest` | apps/api/src/modules/convert/convert-orderbook.service.ts:487-489 | the total the sorted quotes end with is the largest one quoted |
| `OrderbookLadders.LadderIsConservative` | apps/api/src/modules/convert/convert-orderbook.service.ts:483-534 | for quotes in any order: the bids never bring more than a quoted total, and the asks cover every quoted total if no segment was skipped |
| `OrderbookLadders.ShownTotalsAreConservative` | apps/api/src/modules/convert/convert-orderbook.service.ts:528-538 | the totals shown, rounded like the quotes, compare in the same way at every quote |
| `OrderbookLadders.LastSortMovesNothing` | apps/api/src/modules/convert/convert-orderbook.service.ts:536-538 | rounding keeps levels in order, so the final sort leaves the sequence as it is and shown totals do not shrink |
| `OrderbookLadders.ScaleLevels` | apps/api/src/modules/convert/convert-orderbook.service.ts:224-239 | the rescaled levels with totals accumulated again |
| `OrderbookLadders.RescaledAt` | apps/api/src/modules/convert/convert-orderbook.service.ts:224-239 | each rescaled level keeps its size, has its price times the scale, and adds its cost to the total |
| `OrderbookLadders.RescalingKeepsOrder` | apps/api/src/modules/convert/convert-orderbook.service.ts:224-239 | a shown ladder stays in order, level by level, with its sizes, at every scale |
| `OrderbookLadders.RescalingDoesNotCross` | apps/api/src/modules/convert/convert-orderbook.service.ts:215-221 | a book that is not crossed stays so at every scale |
| `OrderbookLadders.ReferenceSeedLadder` | apps/api/src/modules/convert/convert-orderbook.service.ts:447-481 | the seed ladders are in order on both sides and not crossed |
| `OrderbookLadders.SeedIsABook` | apps/api/src/modules/convert/convert-orderbook.service.ts:460-478 | seed prices worsen with depth and every level costs the same |
| `LadderLevels.SeedSpread` | apps/api/src/modules/convert/convert-orderbook.service.ts:454-465 | seed prices lie symmetrically around the middle, five basis points off and 45 more growing with the square of the depth |
| `LadderLevels.SeedTotals` | apps/api/src/modules/convert/convert-orderbook.service.ts:466-478 | seed totals are what the levels so far cost, 400 at the last |
| `Subscriptions.KeyDecides` | apps/api/src/modules/convert/convert-orderbook.service.ts:434-440 | the gateway key of a pair decides its symbol |
| `Subscriptions.NormalizeReadsThePair` | apps/api/src/modules/convert/convert-orderbook.service.ts:434-440 | a text gives a symbol iff the symbol is a pair and the text, trimmed and in capitals, spells it with or without its prefix |
| `Subscriptions.TrimIsTheMiddle` | apps/api/src/modules/convert/convert-orderbook.service.ts:435-435 | a text is its trimmed part between white space, and that part neither begins nor ends with any |
| `Subscriptions.StaleCallDoesNothing` | apps/api/src/modules/convert/convert-orderbook.service.ts:126-139 | an unsubscribe closure called again changes nothing |
| `Subscriptions.ApplyKeeps` | apps/api/src/modules/convert/convert-orderbook.gateway.ts:27-76 | subscribe, unsubscribe, disconnect and stale calls keep listeners, timers and client entries in step |
| `Subscriptions.CountsAgree` | apps/api/src/modules/convert/convert-orderbook.service.ts:103-140 | a symbol has as many listeners as client entries |
| `Subscriptions.TimersFollowListeners` | apps/api/src/modules/convert/convert-orderbook.service.ts:103-140 | after any events a timer runs iff someone listens, and the listeners of a symbol number the live client entries that normalise to it |
| `Subscriptions.EntriesAreWhatStands` | apps/api/src/modules/convert/convert-orderbook.gateway.ts:27-77 | after any events a client has an entry for a key iff it has subscribed to it and neither unsubscribed nor disconnected since |
| `Subscriptions.ClosureStays` | apps/api/src/modules/convert/convert-orderbook.gateway.ts:27-77 | an entry keeps its closure through every event that does not end it |
| `Subscriptions.DisconnectForgets` | apps/api/src/modules/convert/convert-orderbook.gateway.ts:27-33 | a disconnect leaves no record of the client; exactly its listeners are gone, and every other client is as it was |
| `Subscriptions.TimersFollowTheEvents` | apps/api/src/modules/convert/convert-orderbook.service.ts:103-140 | a symbol has listeners, and its timer runs, iff some subscription to it has been made and not ended |
| `Subscriptions.NothingIsLeft` | apps/api/src/modules/convert/convert-orderbook.gateway.ts:27-33 | when every subscription has been ended by its client, no listener and no timer is left |
| `SubscriptionGateway.ListenerRegistry.Listen` | apps/api/src/modules/convert/convert-orderbook.service.ts:103-125 | a listener joins its symbol and starts its timer if there is none; malformed pairs change nothing |
| `SubscriptionGateway.ListenerRegistry.Release` | apps/api/src/modules/convert/convert-orderbook.service.ts:126-139 | a listener leaves; the last one takes the symbol and its timer along |
| `SubscriptionGateway.ConvertOrderbookGateway.SubscribePair` | apps/api/src/modules/convert/convert-orderbook.gateway.ts:35-61 | succeeds iff the pair is well formed, and then exactly its entry is there besides the earlier ones; the maps follow the event |
| `SubscriptionGateway.ConvertOrderbookGateway.UnsubscribePair` | apps/api/src/modules/convert/convert-orderbook.gateway.ts:63-77 | exactly the entry of the pair is gone; the maps follow the event |
| `SubscriptionGateway.ConvertOrderbookGateway.HandleDisconnect` | apps/api/src/modules/convert/convert-orderbook.gateway.ts:27-33 | closing the subscriptions of a client one by one: its record and exactly its listeners are gone |
| `SubscriptionGateway.ConvertOrderbookGateway.CallReleased` | apps/api/src/modules/convert/convert-orderbook.service.ts:126-139 | a closure called again after its subscription has ended leaves all maps as they are |
| `CircuitBreaker.HyperliquidExecutionService.WithProviderResilience` | apps/api/src/modules/hyperliquid/hyperliquid-execution.service.ts:338-383 | the retry loop with its two fields and the trace of its calls; its reply is told from the calls it made |
| `CircuitBreaker.ReplyFollowsTheCalls` | apps/api/src/modules/hyperliquid/hyperliquid-execution.service.ts:343-383 | the result is returned iff the last call made succeeded, an error is passed on iff it was permanent, the circuit is reported open, with the time left and no call made, iff it is; otherwise the provider is unavailable |
| `CircuitBreaker.AnotherCallFollows` | apps/api/src/modules/hyperliquid/hyperliquid-execution.service.ts:349-380 | over every run: behind a closed circuit a call is followed by another iff it failed transiently, attempts are left and the streak is below the threshold |
| `CircuitBreaker.CountsTheStreak` | apps/api/src/modules/hyperliquid/hyperliquid-execution.service.ts:355-366 | transientFailures is the number of transient failures since the last success, and circuitOpenUntil what the last of them says |
| `CircuitBreaker.NoCallWhileOpen` | apps/api/src/modules/hyperliquid/hyperliquid-execution.service.ts:343-348 | no provider call starts while the circuit is open |
| `CircuitBreaker.FailuresAreACooldownApart` | apps/api/src/modules/hyperliquid/hyperliquid-execution.service.ts:362-371 | from the threshold on any two transient failures without a success between are a cooldown apart |
| `CircuitBreaker.StreakIsSlow` | apps/api/src/modules/hyperliquid/hyperliquid-execution.service.ts:362-371 | a streak has lasted a cooldown for every failure beyond the one that opened the circuit |
| `CircuitBreaker.UnsafeIsCalledOnce` | apps/api/src/modules/hyperliquid/hyperliquid-execution.service.ts:349-352 | an operation not safe to repeat reaches the provider once, or not at all behind an open circuit; others at most their attempts |
| `CircuitBreaker.OnlyTransientIsRepeated` | apps/api/src/modules/hyperliquid/hyperliquid-execution.service.ts:354-380 | within an invocation only a transient failure is followed by another call |
| `SweepRecovery.AllocateBlockedSweeps` | apps/api/scripts/recover-bnb-blocked-sweeps.ts:52-108 | the loop with its remaining-balance map |
| `SweepRecovery.LoopGrants` | apps/api/scripts/recover-bnb-blocked-sweeps.ts:96-107 | over a fixed balance each sweep gets its request or what the earlier requests of its key leave |
| `SweepRecovery.LoopAllocatesTheLesser` | apps/api/scripts/recover-bnb-blocked-sweeps.ts:90-107 | per wallet and asset exactly the lesser of the balance and the positive requests is allocated |
| `SweepRecovery.EachGetsAtMostItsRequest` | apps/api/scripts/recover-bnb-blocked-sweeps.ts:104-107 | an accepted sweep gets something, and at most its request |
| `SweepRecovery.EarlierIsServedFirst` | apps/api/scripts/recover-bnb-blocked-sweeps.ts:104-107 | a later sweep of a key gets something only when every earlier one got all it asked for |
| `SweepRecovery.OneReadBounds` | apps/api/scripts/recover-bnb-blocked-sweeps.ts:90-107 | even if the balance moves between reads, a key hands out no more than one balance that was read for it |

## Left out

- Sweep workers are one process: two ticks never hold the same sweep at once, as the lock of the scheduler is meant to ensure.
- SweepSafety.AtMostOneTransfer: not for Tron, where a thrown send deliberately returns the row to PENDING; not across the operator scripts that reset attempts of a sweep by hand.
- SweepSafety.FaithfulReceiptConfirms: not for Tron, whose confirmation does not compare amounts.
- IndexerCursor.CursorIsSafe: tips are above block 0 at every visit.
- ConversionTheorems.ReserveStaysCovered: the custody balance is the one read by the check; withdrawals from custody between check and settlement are not modelled.
- The approval transaction of a 1inch conversion and its stored hash; only swaps are counted.
- The balance and inventory checks of execute beyond their outcome, and the daily limits, which are tested at quote time only.
- The gross output of a confirmed swap (the sum over its logs or a balance difference) is an input.
- Conversion amounts are exact; the Decimal(38,18) columns and the 20-digit arithmetic of the library are not modelled.
- VOIDED ledger transactions, which nothing in the modelled code writes.
- Indexing of native coins and of non-EVM networks, deposit intents, and deposits recorded through the intent endpoints.
- BatchScan.BatchScanner.ScanConfiguredErc20ContractGroups: the balance a log is compared with, and whether its sender is an address of the same user, are the same each time the log is looked at during one run over a network; intents are used up by the logs detected, but none is made, freed or expires meanwhile. A provider that fails ends the scan, as any throw while recording does. Reading the tip or a cursor may throw too: then the run has done nothing. Contracts of a network have different ids and addresses, no address is listed twice, and the tip is above block 0.
- BatchRows.BatchedIsAlone: balances, senders and intents as for ScanConfiguredErc20ContractGroups.
- TrackedDeposits.DepositTracker.DetectTransfer: the tracked total and the balance are read in one step with the write; detections running at the same time are not modelled.
- Snapshots, caching and refreshing of the order book, its spread in basis points, and the websocket messages themselves.
- Subscriptions.KeyDecides: pair names are read with ASCII letters and the four common white-space characters only.
- CircuitBreaker.HyperliquidExecutionService.WithProviderResilience: calls made one after another; calls of concurrent requests are not interleaved, and the delays between attempts are inputs.
- Prices converted to floating point for comparison are compared exactly.
- Signatures, hashing, address checksums, configuration and environment checks, controllers and queries.
