# Verification models of the wallet server

Dafny models of the parts of the wallet server that carry state from one step to the next, with proofs of what they
keep over whole runs. `dafny verify dfyconfig.toml` checks everything.

| file | what it models |
|---|---|
| `EvmAmounts.dfy` | amounts and receivers read out of the hex strings of EVM transactions and ERC-20 transfer logs |
| `EvmLookup.dfy` | the batched address lookup of one block, against one lookup per transfer |
| `EvmOrders.dfy` | how detected deposits move orders from PENDING to DEPOSIT_CONFIRMING |
| `EvmRuns.dfy` | the block-height watermark over runs of jobs, with cache expiry as an environment step |
| `EvmHandled.dfy` | which blocks were handled without an error, and how often, over runs of jobs |
| `EvmSettlements.dfy` | which deposit confirmed which order over runs of jobs |
| `EvmDepositsOnce.dfy` | when a deposit can confirm more than one order |
| `EvmProcessor.dfy` | the chain processor itself: a class whose methods follow the source loop by loop |
| `EvmDelivery.dfy` | what a run hands over of the deposits the chain really holds |
| `WorkerPool.dfy` | the goroutine pool of the btc, sol and trx workers, as a protocol of single steps |
| `JsonNumbers.dfy` | unsigned integers that are cached as JSON numbers and read back as doubles |
| `BlockMonitors.dfy` | the batched Solana slot monitor under a deadline, and the linear Bitcoin monitor |
| `MonitorRuns.dfy` | the attempted and the left out slots of any run of the Solana monitor |
| `SocketRegistry.dfy` | the socket manager's clients, rooms, user registry and per-client room sets |
| `AccountImport.dfy` | bulk account import: duplicate-checked inserts, paging in tens, chunks of five |
| `ImportFields.dfy` | what the imported accounts look like, field by field |
| `ImportKeys.dfy` | the keys with a zero part that an import adds, read off its inputs |
| `ChainReconciler.dfy` | the EVM worker that starts and stops chain workers to match the pending orders |
| `PortfolioCache.dfy` | wallet portfolios cached over cached account portfolios |
| `WalletAge.dfy` | how old the account data in a served wallet portfolio can be |
| `JobQueue.dfy` | the life cycle of regular jobs in the Bull-compatible queue |
| `BitcoinProvider.dfy` | UTXO selection and change on wrapping 64-bit amounts |
| `Common.dfy` | options, wrapping 64-bit sums, letter case, integer ranges, lists without duplicates, sums over lists |

Each mutating component is a class with the source's fields; its methods are proved equal to a function of the old
state, and the theorems are lemmas about that function. MongoDB collections are sequences or maps, Redis keys are
fields, and everything else outside (RPC answers, failing calls, the clock, deadlines, goroutine order, map iteration
order) is a parameter or an arbitrary choice, so every theorem holds for all of it.

Results that say where the code differs from what its documentation suggests:

- Batched deposit lookup (`EvmLookup.BatchRefinesDirectIff`): the case-insensitive query runs only if the exact one
  finds nothing, so a mixed-case account is missed exactly when some lowercase account is paid in the same block.
- Solana deadline and expiry (`BlockMonitors.RunLeavesGapIff`): slots up to the highest watermark are left out exactly when
  some job stores a tip above every slot attempted so far, because it is cut before a batch or because the cached
  watermark has expired and it starts over (`BlockMonitors.CutAtOnceExample`, `BlockMonitors.ExpiryGapExample`;
  `BlockMonitors.CutAfterFailedWriteExample` is a cut without a loss). This holds as long as no job starts over below a
  watermark stored before, so in every run without expiry and in every run whose tips never fall
  (`BlockMonitors.OrdinaryRunLeavesGapIff`); starting over lower can fill a gap again
  (`BlockMonitors.RestartBelowFillsGapExample`). Over any run a slot is left out exactly when such a job passed over it and
  no job reached it (`MonitorRuns.LeftOutIff`).
- Cached watermarks of both monitors (`BlockMonitors.TakesUpWhereStoredIff`): they are cached as JSON numbers and read back
  as doubles, so a job takes up exactly after the stored height if and only if that is a double, as all are up to 2^53;
  above, a slot can be skipped (`BlockMonitors.LargeWatermarkSkipsASlot`).
- EVM watermark (`EvmRuns.RunTriesExactly`, `EvmRuns.ExpiryLeavesOutIff`): the steady-state TTL is 60 seconds although the
  comment beside it says one hour. After an expiry a height is left out exactly when it lies below the first height
  stored afterwards and was not the tip of an earlier, failed job (`EvmRuns.ExpiryGapExample`).
- Shared addresses (`EvmLookup.LastAccountWins`, `EvmLookup.SharedAddressExample`): an import stores an account per currency
  under one address, and a transfer to it goes to the last of them only.
- EVM deposits (`EvmDepositsOnce.NoneConfirmsTwiceIff`): no deposit can confirm two orders if and only if no job handles,
  without failing, a block that was handled before: it starts over at such a tip, or finds new blocks from a watermark below
  such a height. Both a failed write of the watermark and its expiry while the tip stands still do that
  (`EvmSettlements.FailedWriteConfirmsTwice`, `EvmDepositsOnce.ExpiryConfirmsTwice`).
- EVM deposits that are lost (`EvmDelivery.PassedBlockIsDeliveredIff`, `EvmDelivery.DepositIsLostIff`): the watermark passes a
  block however the attempt at it went. As long as it is stored and does not expire, all deposits the chain holds in a passed
  block are handed over exactly when the answers to its one attempt left none out: the block came with its transactions, its
  accounts were looked up and found, and the logs came or pay to no deposit account; or nothing in the block pays to one.
  A failed log query and a null answer for a block the tip reports already lose deposits without an error
  (`EvmDelivery.FailedLogQueryLosesDeposit`, `EvmDelivery.MissingBlockLosesDeposit`).
- Import (`AccountImport.ReturnedIdsAreInsertedIff`, `ImportKeys.FullyUniqueIffZeroKeysAreNew`): a nil account after the first
  loses the ids of accounts already inserted, and zero ids or an empty address defeat the duplicate check, because
  the stored fields are tagged `omitempty`; live accounts stay unique exactly when the given and derived accounts with
  such a key have different keys that no live account had.
- Wallet portfolios (`WalletAge.ReadRecentlyIff`, `WalletAge.CurrentRecentlyIff`): a single TTL bounds the age of the account
  data exactly when, at the time the wallet was built, no listed account had a fresh cache entry that is a TTL old when
  the wallet is served; twice the TTL is the best bound in general (`WalletAge.WalletDataCanOutliveTTL`).
- Payments (`BitcoinProvider.PaymentConservesIffAmountFits`): inputs equal amount + fee + change exactly when
  amount + fee does not wrap (`BitcoinProvider.WrappingPaymentExample`).
- Job queue (`JobQueue.ClearKeepsInvIffBetween`): clearing while a job is in hand breaks the bookkeeping, and only then
  (`JobQueue.ClearWhileHandlingExample`).

## Model

| member | source | states |
|---|---|---|
| `EvmAmounts.AmountRoundTrip` | internal/worker/evm/processor.go:743-768 | Every quantity a node can print, bare or padded with zeros to a log word, is read back as exactly that number of wei divided by 10^18. |
| `EvmAmounts.ReadableIff` | internal/worker/evm/processor.go:743-760 | An amount can be read if and only if it is empty or an optionally signed base-16 number in either letter case, with or without 0x. |
| `EvmAmounts.SignedHex` | internal/worker/evm/processor.go:748-760 | A leading sign is read as such. |
| `EvmAmounts.CaseOfDigitsIsIgnored` | internal/worker/evm/processor.go:748-760 | Large and small digits mean the same. |
| `EvmAmounts.TransferLogRoundTrip` | internal/worker/evm/processor.go:506-547 | A 20-byte receiver and an amount encoded as an ERC-20 Transfer log come back as that receiver, hash and amount. |
| `EvmLookup.SameTransfersIff` | internal/worker/evm/processor.go:310-422 | For every account store and block, batching dispatches the same transfers in the same order as one case-insensitive lookup per transfer if and only if the exact query finds nothing or every paid live account is also stored in lowercase. |
| `EvmLookup.BatchRefinesDirectIff` | internal/worker/evm/processor.go:617-685 | With one live account per address, under exactly the same condition every transfer also goes to the same account. |
| `EvmLookup.LowercaseStoreCovers` | internal/worker/evm/processor.go:617-685 | A store of lowercase addresses satisfies the condition for every block, so batching changes nothing. |
| `EvmLookup.MixedCaseDependsOnTheBlock` | internal/worker/evm/processor.go:651-682 | Whatever the other fields, a mixed-case account is found when it alone is paid and missed when a lowercase account is paid in the same block. |
| `EvmLookup.MixedCaseExample` | internal/worker/evm/processor.go:651-682 | Two accounts and two transfers on which batching loses one. |
| `EvmLookup.LastFoundAccountWins` | internal/worker/evm/processor.go:380-422 | For every store and block, however many accounts share an address: the transfers to the addresses found are dispatched in order, each to the account at the greatest position of the found list whose lowercased address is the transfer's. |
| `EvmLookup.LastAccountWins` | internal/worker/evm/processor.go:617-685 | In terms of the collection: each goes to its last live account with that address among those the answering query asked for. |
| `EvmLookup.SharedAddressExample` | internal/worker/evm/processor.go:380-388 | Two accounts at one address: a transfer goes to the second. |
| `EvmOrders.FindOrderFinds` | internal/worker/evm/processor.go:813-828 | The order found is pending, lists the account, and is the first such; none is found only if there is none. |
| `EvmOrders.MatchesAreTheDropInPending` | internal/worker/evm/processor.go:688-740 | Over any sequence of deposits, with any failing reads and writes, the matches counted equal the drop in PENDING orders; each order is untouched, or was PENDING and is DEPOSIT_CONFIRMING with the same accounts, the amount read from one of the deposits to an account it lists, and that deposit's hash. |
| `EvmOrders.DepositsAreFirstComeFirstServed` | internal/worker/evm/processor.go:550-613 | With one deposit account per order and readable amounts, the i-th transfer to an account takes its i-th pending order to DEPOSIT_CONFIRMING with the amount read from that transfer, its hash and the same accounts, whatever happens on other accounts in between; the remaining orders keep waiting in order. |
| `EvmOrders.ConfirmsTheSmallerNumber` | internal/worker/evm/processor.go:550-613 | An account with k pending orders and t dispatched transfers has exactly min(k, t) orders confirmed. |
| `EvmProcessor.BlockRefinesDirectIff` | internal/worker/evm/processor.go:310-422 | The block's own dispatch list equals that of per-transfer lookups if and only if the block is covered. |
| `EvmProcessor.DepositsGoToLastFound` | internal/worker/evm/processor.go:380-422 | Whatever the store answers, a block whose lookup works hands each deposit to the last account found for its address. |
| `EvmProcessor.OneTransaction` | internal/worker/evm/processor.go:316-332 | A transaction contributes its transfer, at its place, if and only if it is an object that names a receiver. |
| `EvmProcessor.OneLog` | internal/worker/evm/processor.go:505-547 | A log contributes, at its place, the transfer of its data to the address in its third topic, if it has one. |
| `EvmProcessor.BlockFailsIff` | internal/worker/evm/processor.go:255-378 | A block fails if and only if it cannot be fetched, or it has transactions and transfers and the lookup fails. |
| `EvmProcessor.ChainProcessor.FindDepositAccountsByAddresses` | internal/worker/evm/processor.go:617-685 | Returns nothing for no addresses, else the exact matches of the lowercased addresses, else the case-insensitive ones. |
| `EvmProcessor.ChainProcessor.ExtractNatives` | internal/worker/evm/processor.go:316-332 | The native transfers that name a receiver, in block order, and exactly the set of their lowercased receivers. |
| `EvmProcessor.ChainProcessor.ExtractTokens` | internal/worker/evm/processor.go:335-346 | The token transfers that name a receiver, and the union of both kinds' lowercased receivers. |
| `EvmProcessor.ChainProcessor.HandleBlock` | internal/worker/evm/processor.go:390-422 | Native transfers are handed over before token transfers; the two counters add up to the matches of the whole sequence, and the first one counts the native ones. |
| `EvmProcessor.ChainProcessor.ProcessBlock` | internal/worker/evm/processor.go:255-450 | Fails exactly when the block cannot be fetched or the lookup fails; the orders and the counters are those of handing over the block's deposits one by one. |
| `EvmProcessor.ChainProcessor.ProcessOrderTransaction` | internal/worker/evm/processor.go:688-740 | Succeeds exactly when the amount can be read and the update works; then that order has its old accounts, status DEPOSIT_CONFIRMING, that amount and that hash, and no other order changes; else none does. |
| `EvmProcessor.ChainProcessor.ProcessChain` | internal/worker/evm/processor.go:136-251 | One job takes watermark, orders and attempted heights exactly to the next state of the run model, and reports an error exactly in the listed cases. |
| `EvmRuns.NoGapWithoutExpiry` | internal/worker/evm/processor.go:221-246 | Over any run without expiry, the watermark never decreases even if the tip goes back, and every height up to it has been attempted even if blocks or cache writes fail. |
| `EvmRuns.EachHeightOnceIff` | internal/worker/evm/processor.go:221-246 | Each height is attempted exactly once and ascending if and only if no job that found new blocks failed to write the watermark. |
| `EvmRuns.FreshStart` | internal/worker/evm/processor.go:196-218 | Starting without a watermark, some job is the first to succeed; from its height on nothing is left out, and with working cache writes the attempts are the failed first ones followed by each height once. |
| `EvmRuns.RunTriesExactly` | internal/worker/evm/processor.go:142-251 | Over any run with any number of expiries and failures, the heights attempted are exactly: above the first watermark up to the highest tip; and after each expiry the tips of the jobs before the first one that stores a watermark, and from that one's height up to the highest tip. |
| `EvmRuns.ExpiryLeavesOutIff` | internal/worker/evm/processor.go:196-242 | After one expiry and any mix of failing and working jobs, a height up to the final watermark is left out if and only if it lies below the first height stored and was no tip of an earlier job. |
| `EvmRuns.ExpiryGapExample` | internal/worker/evm/processor.go:242-242 | Watermark 10 expires and the next job finds 13: 11 and 12 are never attempted. |
| `EvmRuns.ExpiryWithoutGapExample` | internal/worker/evm/processor.go:203-205 | The next job finds 11 and fails, the one after finds 12: nothing is left out. |
| `EvmRuns.RunsOnlySettleOrders` | internal/worker/evm/processor.go:688-740 | Over any run, expiries included, every order is left alone or goes once from PENDING to DEPOSIT_CONFIRMING with the amount and hash of a deposit of the run to an account it lists, keeping its accounts. |
| `EvmRuns.SucceedsIffCaughtUp` | internal/worker/evm/processor.go:136-251 | A job reports success if and only if it learnt tip and watermark and the watermark has reached the tip. |
| `EvmHandled.HandledOnceIff` | internal/worker/evm/processor.go:196-246 | Over any run, no block is handled twice if and only if no job starts over at a working tip handled before or finds new blocks from a watermark below a working height handled before. |
| `EvmHandled.HandledIff` | internal/worker/evm/processor.go:228-246 | Over any run, a block is handled if and only if some job attempts it and that attempt reports no error; what the node's answer left out is the matter of `EvmDelivery`. |
| `EvmHandled.PassedUnhandledIff` | internal/worker/evm/processor.go:228-246 | While the watermark is stored and does not expire, there is exactly one attempt at a height it has passed, so the height was not handled if and only if that attempt reported an error. |
| `EvmSettlements.ConfirmationsAreTheDropInPending` | internal/worker/evm/processor.go:688-740 | Over any run, expiries and failures included, there are as many confirmations as PENDING orders have gone. |
| `EvmSettlements.EachDepositConfirmsAtMostOnce` | internal/worker/evm/processor.go:221-246 | In particular, when every new watermark is stored and none expires, the confirmations of a run follow the order of the chain, block by block and place by place, so no deposit confirms twice; `EvmDepositsOnce.NoneConfirmsTwiceIff` gives the exact condition. |
| `EvmSettlements.FailedWriteConfirmsTwice` | internal/worker/evm/processor.go:242-245 | After any failed watermark write over a block with one deposit, the next job confirms a second waiting order with the same deposit. |
| `EvmDepositsOnce.ConfirmsAtMostAsOftenAsHandled` | internal/worker/evm/processor.go:255-450 | Over any run, expiries and failures included, a deposit confirms at most as many orders as there were times its block was handled without failing. |
| `EvmDepositsOnce.ConfirmsAsOftenAsHandled` | internal/worker/evm/processor.go:688-740 | A readable deposit, alone in the run and with a working order store, confirms exactly one order for each time its block is handled, in natural order, as long as so many wait for it. |
| `EvmDepositsOnce.HandledAtMostAsOftenAsTried` | internal/worker/evm/processor.go:196-246 | Over any run a block is handled at most as often as it is attempted, so its attempts bound its confirmations too. |
| `EvmDepositsOnce.NoneConfirmsTwiceIff` | internal/worker/evm/processor.go:196-246 | For any jobs: no deposit confirms two orders, whatever the deposits on the chain, the orders and the failures of the order store, if and only if no job handles a block that was handled before. |
| `EvmDepositsOnce.ExpiryConfirmsTwice` | internal/worker/evm/processor.go:196-210 | With every watermark stored, an expiry while the tip stands still makes one deposit confirm two waiting orders. |
| `EvmDepositsOnce.UnhandledBlocksConfirmNothing` | internal/worker/evm/processor.go:228-235 | The deposits of a block that no attempt handled without an error confirm no order in the run. |
| `EvmDelivery.BlockDeliversAllIff` | internal/worker/evm/processor.go:255-422 | With one live account per address, for any content of a block and any answer that tells nothing wrong of it: what is handed over equals one lookup for each transfer the chain holds if and only if the block came with its transactions and was covered by the lookup, and the logs came or pay to no deposit account; or it did not come, or its lookup failed, and nothing in it pays to one. |
| `EvmDelivery.BlockDeliversTransfersIff` | internal/worker/evm/processor.go:255-422 | The same for any accounts, shared addresses included, on the transfers handed over: none of those to deposit accounts is missing or extra if and only if the same condition holds. |
| `EvmDelivery.PassedBlockIsDeliveredIff` | internal/worker/evm/processor.go:221-246 | While the watermark is stored and does not expire, each passed height has exactly one attempt, and the run hands over all transfers the chain holds in it to deposit accounts, and with one live account per address each to its account, if and only if the answers to that attempt left none out. |
| `EvmDelivery.HandedOverCounts` | internal/worker/evm/processor.go:255-422 | Over any run, expiries and failures included, with lowercase accounts: each native deposit is handed over once for each attempt that got the block, each token deposit once for each attempt that got the logs too. |
| `EvmDelivery.DepositIsLostIff` | internal/worker/evm/processor.go:255-422 | Over any such run a deposit the chain holds is never handed over if and only if no attempt got its block, or it comes from logs alone and no attempt got them. |
| `EvmDelivery.OnlyHandedOverConfirm` | internal/worker/evm/processor.go:550-613 | Over any run, whatever confirms an order is one of the deposits that were handed over of its block, so a lost one confirms none. |
| `EvmDelivery.RoundsConfirmAtMostAsOftenAsHandled` | internal/worker/evm/processor.go:136-251 | Over any run of the processor's own jobs a deposit confirms at most as many orders as its block was handled times, and at most one if no job repeats a block. |
| `EvmDelivery.FailedLogQueryLosesDeposit` | internal/worker/evm/processor.go:285-299 | A standard Transfer log of any amount to a stored account, in a block whose log query fails: the attempt reports no error, the watermark passes, and not all deposits were handed over. |
| `EvmDelivery.MissingBlockLosesDeposit` | internal/worker/evm/ankr_client.go:50-56 | The node answers null for a block its tip reports already: no error, the watermark passes, nothing is handed over, though the block holds a payment to a stored account. |
| `WorkerPool.ConservationInEveryInterleaving` | internal/worker/btc/worker.go:313-355 | In every interleaving of main, the workers and the collector, the accounts sent equal queued + in flight + in results + collected as multisets, and the counters count what was collected. |
| `WorkerPool.NoDeadlock` | internal/worker/btc/worker.go:313-355 | Every reachable state that is not final has an enabled step. |
| `WorkerPool.StepsLeftDropsByOne` | internal/worker/trx/worker.go:317-366 | Every step of every goroutine uses up exactly one unit of a measure. |
| `WorkerPool.FinalIffNoStepsLeft` | internal/worker/trx/worker.go:317-366 | In a reachable state, being finished, having no enabled step and having used up the measure are the same. |
| `WorkerPool.EveryInterleavingTerminates` | internal/worker/trx/worker.go:317-366 | Every complete interleaving has exactly 5n + min(workers, n) + 2 steps and none is longer. |
| `WorkerPool.EachAccountProcessedExactlyOnce` | internal/worker/btc/worker.go:313-355 | When main returns, the processing steps taken are the collected results, their accounts are the given ones, each once, and successes + failures = n. |
| `WorkerPool.FailuresIgnoreOrder` | internal/worker/sol/worker.go:373-394 | The number of failures does not depend on the order in which results arrive. |
| `WorkerPool.RunPool` | internal/worker/trx/worker.go:317-366 | For any choice of enabled steps the pool returns, with as many errors as there are failing accounts. |
| `WorkerPool.ProcessSolanaAccounts` | internal/worker/sol/worker.go:341-394 | The Solana caller returns an error if and only if some account failed. |
| `BlockMonitors.SolanaBlockMonitor.ProcessBlockMonitorJob` | managers/workers/solana_block_monitor.go:180-307 | One job moves watermark and attempted slots as the closed form says, for every deadline and every failing call. |
| `BlockMonitors.SolanaBlockMonitor.ProcessBatches` | managers/workers/solana_block_monitor.go:235-290 | The nested loops with wrapping bounds and the overwritten currentSlot first find the deadline expired exactly where the closed form says, recorded at their own two checks; over that place the attempted slots and the returned watermark are those of the deadline account. |
| `BlockMonitors.BitcoinBlockMonitor.ProcessBlockMonitorJob` | managers/workers/bitcoin_block_monitor.go:109-165 | The linear loop attempts last+1..tip in order and stores the tip. |
| `BlockMonitors.BatchesConcatenateIff` | managers/workers/solana_block_monitor.go:235-262 | The clamped batches concatenate to exactly last+1..cur if and only if the last batch's end does not wrap, which holds below 2^64-10. |
| `BlockMonitors.BatchedRefinesLinearIff` | managers/workers/bitcoin_block_monitor.go:146-153 | Without a deadline the batched job does what the linear job does if and only if no batch end wraps. |
| `BlockMonitors.DeadlineAccount` | managers/workers/solana_block_monitor.go:247-295 | The stored watermark passes the last attempted slot if and only if the expired deadline is first seen before a batch; seen before slot s, all slots below s were attempted and s-1 is stored, or the old watermark when s starts a batch. |
| `BlockMonitors.NothingLeftOut` | managers/workers/solana_block_monitor.go:180-307 | Over every run of jobs and expiries with watermarks up to 2^53, wherever jobs start over: if no job stored a tip above every slot attempted so far without attempting it, no slot up to the highest watermark has been left out. |
| `BlockMonitors.RunLeavesGapIff` | managers/workers/solana_block_monitor.go:180-307 | Over any run of jobs and expiries, with watermarks up to 2^53, in which no job starts over below a watermark stored before: some slot up to the highest watermark has not been attempted if and only if some job stored a tip above every slot attempted so far, its own included, because it was cut before a batch or started over without a watermark. |
| `BlockMonitors.OrdinaryRunLeavesGapIff` | managers/workers/solana_block_monitor.go:180-307 | The same equivalence over every run without expiry and over every run, expiries included, whose tips never fall. |
| `MonitorRuns.AttemptedIff` | managers/workers/solana_block_monitor.go:180-307 | Over any run of jobs and expiries the attempted slots are exactly those that lie above the watermark of some job and that it reaches before its deadline. |
| `MonitorRuns.LeftOutIff` | managers/workers/solana_block_monitor.go:180-307 | Over any run with watermarks up to 2^53, wherever jobs start over: a slot above the first watermark and up to the highest one is left out if and only if some job stored a tip beyond its own attempts, being cut before a batch or finding no watermark, with the slot in between, and no job reached it. |
| `MonitorRuns.BatchesAreTens` | managers/workers/solana_block_monitor.go:235-262 | Batch b is the slots last+10b+1 to last+10b+10, cut at the tip, and the batches reach the tip and no further. |
| `MonitorRuns.DeadlineIsSeenAt` | managers/workers/solana_block_monitor.go:247-285 | The deadline is looked at before each batch of ten and before each slot: after how many looks it is first seen before which batch or slot. |
| `MonitorRuns.LinearSucceedsIffCaughtUp` | managers/workers/bitcoin_block_monitor.go:75-165 | The linear job reports success if and only if it learnt tip and watermark and the watermark has reached the tip. |
| `MonitorRuns.BatchedSucceedsIff` | managers/workers/solana_block_monitor.go:175-307 | So does the batched one, except that a deadline seen before a slot is no error: it then reports success if and only if the watermark was written, which lies below the tip. |
| `MonitorRuns.ErrorsKeepWatermark` | managers/workers/solana_block_monitor.go:175-307 | A job that reports an error leaves the watermark alone. |
| `BlockMonitors.NoGapUnlessCutBeforeBatch` | managers/workers/solana_block_monitor.go:180-307 | In particular no slot is missing in a run, expiries included, if no deadline is first seen before a batch and no job starts over. |
| `BlockMonitors.CutBeforeBatchLosesSlotsForGood` | managers/workers/solana_block_monitor.go:247-252 | A cut before a batch leaves a slot at or below the new watermark that neither that job nor any later run attempts, expiries included, unless a job starts over below a watermark stored since. |
| `BlockMonitors.LaterRunsStayAbove` | managers/workers/solana_block_monitor.go:217-231 | Any run of jobs and expiries in which no job starts over below a watermark stored before keeps its history, never stores a lower watermark than at the start and attempts only slots above that, for watermarks up to 2^53. |
| `BlockMonitors.TakesUpWhereStoredIff` | managers/workers/bitcoin_block_monitor.go:89-107 | With a stored watermark below the tip, a job attempts exactly the heights from the watermark's successor to the tip if and only if the watermark is a double (one that rounds up to 2^64: if and only if the platform converts 2^64 to it). |
| `BlockMonitors.CutAtOnceExample` | managers/workers/solana_block_monitor.go:247-252 | Watermark 10, tip 30, deadline seen at the first check: 30 is stored and nothing attempted. |
| `BlockMonitors.CutAfterFailedWriteExample` | managers/workers/solana_block_monitor.go:247-252 | The same cut after a job whose cache write failed leaves nothing out. |
| `BlockMonitors.ExpiryGapExample` | managers/workers/solana_block_monitor.go:217-228 | Watermark 30 expires and the next job finds tip 50: 50 is stored and 31 to 50 are never attempted. |
| `BlockMonitors.RestartBelowFillsGapExample` | managers/workers/solana_block_monitor.go:217-228 | After another expiry a job starts over at 30 and the next one attempts 31 to 50: nothing is left out, so the condition of `BlockMonitors.RunLeavesGapIff` is needed. |
| `BlockMonitors.LargeWatermarkSkipsASlot` | managers/workers/solana_block_monitor.go:180-189 | The watermark 2^53+3 reads back as 2^53+4, and slot 2^53+4 is not attempted. |
| `JsonNumbers.ComesBackIff` | managers/cache/cache.go:33-78 | A cached number comes back unchanged if and only if it is a double, and otherwise off by at most half the distance between doubles. |
| `JsonNumbers.SmallComesBack` | managers/cache/cache.go:33-78 | Up to 2^53 every number comes back unchanged. |
| `SocketRegistry.SocketManager.RegisterClient` | managers/socket/manager.go:99-115 | Adds the client and lists its id last among its user's. |
| `SocketRegistry.SocketManager.UnregisterClient` | managers/socket/manager.go:118-160 | Removes the client from every room it is in, deletes rooms left empty, takes its first entry out of its user's list and drops an empty list; reports whether it was registered. |
| `SocketRegistry.SocketManager.LeaveAllRooms` | managers/socket/manager.go:128-136 | In whatever order the rooms are visited, the client is in none of them afterwards and the rooms left empty are gone. |
| `SocketRegistry.SocketManager.RemoveFromUserRegistry` | managers/socket/manager.go:139-153 | The splice removes exactly the first occurrence of the id. |
| `SocketRegistry.SocketManager.ClientJoinRoom` | managers/socket/manager.go:307-324 | Creates a missing room and records membership on both sides. |
| `SocketRegistry.SocketManager.ClientLeaveRoom` | managers/socket/manager.go:327-347 | Removes membership on both sides and a room left empty; does nothing for an unknown room. |
| `SocketRegistry.SocketManager.IsUserConnected` | managers/socket/manager.go:285-291 | In a consistent registry, true if and only if some registered client has that user. |
| `SocketRegistry.SocketManager.GetUserClientIDs` | managers/socket/manager.go:294-304 | In a consistent registry, the list holds exactly the registered clients of the user. |
| `SocketRegistry.SocketManager.Shutdown` | managers/socket/manager.go:373-391 | Leaves all three indexes empty. |
| `SocketRegistry.RegisterKeepsInvIff` | managers/socket/manager.go:99-115 | Registering keeps the registry consistent if and only if the id is new and the client in no room, or a client without user registers again with the same rooms. |
| `SocketRegistry.JoinKeepsInvIffRegistered` | managers/socket/manager.go:307-324 | Joining keeps the registry consistent if and only if the client is registered. |
| `SocketRegistry.LeaveKeepsInv` | managers/socket/manager.go:327-347 | Leaving always keeps the registry consistent. |
| `SocketRegistry.UnregisterKeepsUsersListed` | managers/socket/manager.go:139-153 | Unregistering keeps every user's list non-empty, duplicate-free and exact. |
| `SocketRegistry.UnregisterKeepsRoomsMirrored` | managers/socket/manager.go:128-136 | Unregistering keeps rooms non-empty and mirrored in the clients' own room sets. |
| `SocketRegistry.RunsKeepInv` | managers/socket/manager.go:99-160 | Every run of critical sections keeps all three indexes and the back pointers consistent. |
| `SocketRegistry.OthersCommute` | managers/socket/manager.go:118-160 | Any step of another client commutes with unregistering a client. |
| `SocketRegistry.UnregisterErasesClient` | managers/socket/manager.go:99-160 | Register a client, let it join and leave while others do anything, unregister it: the registry is exactly what the others alone would have made of it. |
| `SocketRegistry.OwnStepsRoundTrip` | managers/socket/manager.go:99-160 | A client alone gives back exactly the earlier clients, rooms and user registry, whether each room existed before or it created it. |
| `AccountImport.AccountUseCase.ImportAccount` | src/usecases/account_usecase.go:631-872 | One given account is normalised, rejected as duplicate, inserted with its balance, or fails, in the source's order of checks. |
| `AccountImport.AccountUseCase.ProcessOriginalAccounts` | src/usecases/account_usecase.go:600-877 | The given accounts are handled in order up to the first error, with the ids inserted so far. |
| `AccountImport.AccountUseCase.GetBatch` | src/adapters/supported_currency_adapter.go:48-79 | The page is exactly the clamped slice of the list, empty past its end. |
| `AccountImport.AccountUseCase.DeriveMissing` | src/usecases/account_usecase.go:324-597 | The paged and chunked loops end, and what they did is the flat loop over the uncovered currencies: all of them and every page came if there is no error, else those before a page that did not come, at a multiple of ten, or before a cancelled chunk, at a multiple of five within its page. |
| `AccountImport.PageContinuesTodo` | src/usecases/account_usecase.go:324-388 | The uncovered currencies of a page continue those of the earlier pages, so pages and chunks visit every entry once and in order. |
| `AccountImport.AccountUseCase.ImportAccounts` | src/usecases/account_usecase.go:255-597 | The store, the returned ids and the error are those of a named early return, of the first phase stopped at its first error, or of the first phase followed by the second, complete or stopped at such a place; `ImportFields.ImportStoresGivenOrDerived` says what the stored accounts look like. |
| `ImportFields.ImportStoresGivenOrDerived` | src/usecases/account_usecase.go:255-872 | Every account an import stores, also one that fails, is a given one with wallet, user, address and key kept, chain, currency and type filled in and its balance fetched if it can be; or it was derived for a listed currency no given account covers, with wallet, user, address and key of the first given account on its chain, the currency's ids, type ACCOUNT_IMPORTED, and the balance the node tells, or 0 if it tells none or that account is ACCOUNT_CREATED. |
| `ImportFields.VerdictIff` | src/usecases/account_usecase.go:713-760 | A given account whose lookups work is a duplicate if and only if a live document has its address, user, chain and currency and none is zero; else it is inserted if and only if the write works and its id is free. |
| `AccountImport.ReturnedIdsAreInsertedIff` | src/usecases/account_usecase.go:300-306 | On success and on every error return alike, the returned ids are exactly those of the accounts inserted if and only if no recovered nil dereference loses them. |
| `AccountImport.ImportKeepsUnique` | src/usecases/account_usecase.go:713-733 | Every import, successful or not, keeps live accounts unique on (address, user, chain, currency) when none of the four is zero or empty. |
| `AccountImport.InsertIsUniqueIff` | config/mongodb/repositories.go:310-359 | An insert that passed the duplicate check keeps all keys unique if and only if its key has no zero part or was not present. |
| `AccountImport.ImportIsFullyUniqueIff` | src/usecases/account_usecase.go:255-597 | Over a whole import, successful or not, all live accounts differ in some part of the key afterwards if and only if they did before and no insert repeated a key with a zero id or an empty address. |
| `ImportKeys.FullyUniqueIffZeroKeysAreNew` | src/usecases/account_usecase.go:255-597 | With fresh object ids, over a whole import, given how many accounts it handles before its first error and how many currencies it derives: all live accounts differ in some part of the key afterwards if and only if they did before and the keys with a zero id or an empty address, of the given accounts as normalised and of the currencies derived from them, are all different and new. |
| `AccountImport.ImportIsComplete` | src/usecases/account_usecase.go:395-529 | After a successful import, every supported currency with non-zero ids on a chain of some imported account has a live account with the address and user of an imported account, provided that, if it was uncovered, all calls work at one of its places in the list. |
| `AccountImport.ZeroKeyIsImportedTwice` | models/models.go:28-57 | The same account without a supported currency, given twice, is stored twice. |
| `AccountImport.NilAccountLosesIds` | src/usecases/account_usecase.go:255-300 | A nil second account: the first one is stored and its id lost without an error. |
| `ChainReconciler.Worker.ChainsMatchCurrentState` | internal/worker/evm/worker.go:327-348 | True exactly when the list is as long as the active set and covers it. |
| `ChainReconciler.Worker.StopChainsWithoutOrders` | internal/worker/evm/worker.go:303-310 | In whatever order the map is visited, exactly the chains not required are cancelled and dropped. |
| `ChainReconciler.Worker.ManageChainsBasedOnOrders` | internal/worker/evm/worker.go:285-324 | One reconcile takes active map, workers, cancellations and delay to the state of the model. |
| `ChainReconciler.Worker.StopAllChains` | internal/worker/evm/worker.go:454-468 | Cancels every active worker once and empties the active map. |
| `ChainReconciler.MatchMeansEqual` | internal/worker/evm/worker.go:327-348 | The pigeonhole argument: when the check succeeds, the active chains are exactly those listed. |
| `ChainReconciler.EarlyExitIsExact` | internal/worker/evm/worker.go:289-295 | Whenever the early exit is taken, the full reconcile would have changed nothing. |
| `ChainReconciler.ReconcileReachesRequired` | internal/worker/evm/worker.go:285-324 | Afterwards the active chains are exactly the required supported ones, whatever duplicates or letter case the list has, and the bookkeeping of workers is exact. |
| `ChainReconciler.ReconcileReachesList` | internal/worker/evm/worker.go:285-324 | On supported lowercase symbols the active keys equal the set of required symbols. |
| `ChainReconciler.SurvivorsAreNotRestarted` | internal/worker/evm/worker.go:312-320 | A chain that stays required keeps its very worker. |
| `ChainReconciler.LeaversAreCancelledOnce` | internal/worker/evm/worker.go:432-451 | A chain that is no longer required has its worker cancelled exactly once. |
| `ChainReconciler.StartupDelay` | internal/worker/evm/worker.go:351-368 | Starting k chains beside n survivors sleeps exactly k * (2n + k - 1) seconds. |
| `ChainReconciler.WorkersOverRuns` | internal/worker/evm/worker.go:285-324 | Over any sequence of checks the active chains are those of the last check that are eth, matic, op or bsc in any letter case, the workers started and not cancelled are exactly theirs, all others were cancelled exactly once, and stopping all chains cancels the rest. |
| `PortfolioCache.PortfolioUseCase.GetAccountPortfolio` | src/usecases/portfolio_usecase.go:143-208 | Serves a fresh entry, else computes, stores and serves; stores nothing when a lookup fails. |
| `PortfolioCache.PortfolioUseCase.GetWalletPortfolio` | src/usecases/portfolio_usecase.go:71-140 | Serves a fresh entry, else builds the wallet from its accounts in some goroutine order and stores it. |
| `PortfolioCache.NewWalletPortfolio` | src/types/portfolio.go:76-87 | The wallet total is the sum of its account totals. |
| `PortfolioCache.ComputesWhatShows` | src/usecases/portfolio_usecase.go:143-208 | What is computed for an account is exactly the portfolio with its id, address, currency symbol, chain, balance, listed price and, as both values, balance times price; nothing is computed exactly when the account or its currency is not found. |
| `PortfolioCache.ServedForFiveMinutes` | src/usecases/portfolio_usecase.go:143-208 | A cached account portfolio is served for 300 seconds; otherwise one that shows what the repositories say is served and cached, or none. |
| `PortfolioCache.WalletServedForFiveMinutes` | src/usecases/portfolio_usecase.go:71-140 | So is a wallet; one without accounts is never cached. |
| `PortfolioCache.GoroutinesDoNotInterfere` | src/usecases/portfolio_usecase.go:106-126 | What one goroutine stores never changes what another of the same call is served. |
| `PortfolioCache.WalletTotalIgnoresGoroutineOrder` | src/usecases/portfolio_usecase.go:106-131 | In whatever order the goroutines append, the wallet holds the same account portfolios and the same total. |
| `PortfolioCache.UsdTotalIgnoresOrder` | src/types/portfolio.go:76-87 | The total is the same for every order of the accounts. |
| `PortfolioCache.AccountStaleness` | src/usecases/portfolio_usecase.go:143-208 | An account portfolio served at t shows what the repositories said at an instant after t - TTL, value and price included, and every known account is served. |
| `PortfolioCache.WalletStaleness` | src/usecases/portfolio_usecase.go:71-140 | A wallet portfolio served at t was built after t - TTL from the account list of that time and account data at most a TTL older. |
| `PortfolioCache.StalenessOverRuns` | src/usecases/portfolio_usecase.go:71-208 | Over every run of calls the account data in a wallet served at t was read after t - 2 TTL. |
| `WalletAge.BuiltWalletIsServed` | src/usecases/portfolio_usecase.go:71-140 | A wallet built at t is served unchanged until t + TTL whatever calls come in between, and each account in it is as it was at its cached timestamp if that was fresh at t, else at t. |
| `WalletAge.BuiltWalletWorth` | src/usecases/portfolio_usecase.go:71-140 | The total of a built wallet is the sum of balance times listed price over the accounts listed, each as of its read time, unknown ones counting 0. |
| `WalletAge.ReadRecentlyIff` | src/usecases/portfolio_usecase.go:71-208 | All data of a wallet built at t and served at now was read within the last TTL if and only if, at t, no listed account had a fresh cache entry from now - TTL or before. |
| `WalletAge.CurrentRecentlyIff` | src/usecases/portfolio_usecase.go:71-208 | All of it was current at some instant within the last TTL if and only if each such older entry holds what the repositories said again within the last TTL. |
| `WalletAge.WalletDataCanOutliveTTL` | src/usecases/portfolio_usecase.go:71-208 | Data read at 0 and at no later instant is served at 2 TTL - 2, so twice the TTL is the best bound. |
| `JobQueue.QueueManager.AddJob` | managers/queue/queue.go:120-195 | A job is stored as waiting with its data and queued last, and nothing else changes in lists or records. |
| `JobQueue.QueueManager.ProcessNext` | managers/queue/queue.go:420-585 | One iteration takes the oldest waiting job, runs its handler and files it as completed or failed. |
| `JobQueue.QueueManager.GetQueueStatus` | managers/queue/queue.go:649-677 | The four lengths; together they are the jobs added since the last clear, short of one just popped. |
| `JobQueue.RunKeepsInv` | managers/queue/queue.go:420-585 | Every interleaving of adding clients with the processor keeps lists and stored records consistent. |
| `JobQueue.JobIdsAreConserved` | managers/queue/queue.go:420-585 | The ids in wait, in hand, active, completed and failed are exactly those added since the last clear, each once, and jobs are taken in the order added. |
| `JobQueue.JobsKeepTheirData` | managers/queue/queue.go:120-585 | Over every legal run each job added since the last clear, waiting, in hand or finished, is stored with the data it was added with, and the handler of the k-th job gets the data of the k-th addition. |
| `JobQueue.StoredStateMatchesList` | managers/queue/queue.go:520-585 | Between iterations nothing is active and a stored state is completed, failed or waiting if and only if the id is in that list. |
| `JobQueue.ClearKeepsInvIffBetween` | managers/queue/queue.go:680-698 | Clearing keeps the books if and only if the processor is between iterations. |
| `JobQueue.ClearWhileHandlingExample` | managers/queue/queue.go:680-698 | A job is added, popped and handled; clearing then leaves the books inconsistent. |
| `JobQueue.AddKeepsInvIffNew` | managers/queue/queue.go:120-195 | Adding keeps the books if and only if the id is new since the last clear. |
| `BitcoinProvider.SelectUTXOs` | providers/blockchain/bitcoin/provider.go:585-603 | Stops at the first non-empty prefix whose 64-bit accumulator covers the requirement, and fails if there is none. |
| `BitcoinProvider.FailsWhenFundsAreShort` | providers/blockchain/bitcoin/provider.go:585-603 | Too little money is never a success, wrapping or not. |
| `BitcoinProvider.FailsIffFundsAreShort` | providers/blockchain/bitcoin/provider.go:585-603 | When the funds fit in 64 bits, selection fails if and only if they sum below the requirement. |
| `BitcoinProvider.SelectsShortestPrefixIffItFits` | providers/blockchain/bitcoin/provider.go:585-603 | The answer is the shortest sufficient prefix with its exact value if and only if that value fits in 64 bits. |
| `BitcoinProvider.CreateTransaction` | providers/blockchain/bitcoin/provider.go:306-325 | Selects for amount plus fee in wrapping arithmetic and returns what is left as change. |
| `BitcoinProvider.PaymentConservesIffAmountFits` | providers/blockchain/bitcoin/provider.go:306-325 | Inputs = amount + fee + change if and only if amount + fee does not wrap; then the change is below the last input. |
| `BitcoinProvider.WrappingPaymentExample` | providers/blockchain/bitcoin/provider.go:306-325 | An amount of 2^64-2048 is accepted against an output of 10000, with 2048 of change. |

## Left out

- HTTP, gRPC, gin handlers, websocket pumps, loggers, secrets, index creation and configuration: plumbing without state
  that later steps depend on.
- Floating point: amounts and USD values are real numbers, so rounding is not captured. Heights are: the EVM processor
  caches them as text, which loses nothing, and the monitors as JSON numbers, which `JsonNumbers.dfy` models.
- Cached heights of other writers: the cache holds what ProcessChain stored, or nothing; text that is not a number is
  read as nothing.
- Concurrent updates of one order (find, then update by id) and other writers of accounts or orders while a block is
  processed.
- Chain reorganisations: a block brings the same deposits at every attempt, and a transaction that moves to another
  height is two deposits.
- Payments that are neither a transaction's own value nor a Transfer log, such as transfers by contracts, and answers of a
  node that are wrong rather than incomplete.
- EvmDelivery.HandedOverCounts: requires accounts that stay the same over the run and are stored in lowercase, one for each
  address, because otherwise an attempt can miss accounts; EvmDelivery.PassedBlockIsDeliveredIff requires none of this.
- Case-insensitive matching: addresses are ASCII; regular-expression metacharacters and a trailing newline in a
  stored address are not captured.
- Documents are identified by position (orders) or by a natural number (object ids, 0 for the zero id).
- BlockMonitors.SolanaBlockMonitor.ProcessBlockMonitorJob: requires that the last batch ends below slot 2^64-1, because
  the source's slot counter wraps there and its loop does not end by itself.
- BlockMonitors.SolanaBlockMonitor.ProcessBatches: requires the same.
- BlockMonitors.BitcoinBlockMonitor.ProcessBlockMonitorJob: requires a tip below 2^64-1 when there are new blocks, for
  the same reason; so does BlockMonitors.BatchedRefinesLinearIff, which compares with that loop.
- BlockMonitors.RunLeavesGapIff: bounds the watermarks by 2^53; above, a watermark may read back changed, and
  BlockMonitors.TakesUpWhereStoredIff says exactly when. It also requires that no job starts over below a watermark stored
  before, since such a job can fill a gap again; MonitorRuns.LeftOutIff, which speaks of each slot, does not.
- ImportKeys.FullyUniqueIffZeroKeysAreNew: requires object ids that are not taken, as the driver's generator makes them;
  AccountImport.ImportIsFullyUniqueIff needs no such requirement but speaks of the inserts of the run.
- Overlapping monitor jobs, and runs of the Bitcoin monitor.
- Aliasing in account import: the same account object given twice is two values here.
- The backing arrays of Go slices: the splice of a user's client ids yields a new sequence.
- Operations that take the socket manager's lock several times (CreateUserRoom, EmitToUser, EmitToRoom), event
  handlers, and joins of clients that are not registered as part of a run; for the latter only the exact effect on
  consistency is stated.
- PortfolioCache.PortfolioUseCase.GetWalletPortfolio: the goroutines of one request see the cache one after the other,
  in any order, and at one instant of the clock.
- A repository that answers neither an error nor a document counts as one that answers an error; nil entries in the list of
  supported currencies do not occur.
- The queue processor's map of active job ids is the one job in hand, since a processor handles one job at a time.
- Repeat jobs, ProcessJobs and partial failures of a Redis pipeline.
- Transaction history of the btc, sol and trx workers: duplicates are looked up under one field name and stored under
  another.
- ChangeNow rates, order field merging, Ankr URL helpers, address format checks, mock providers and treasury addresses:
  stateless formatting or placeholder code.
- EvmOrders.DepositsAreFirstComeFirstServed: requires one deposit account per order, because with several accounts
  one order can be taken by a transfer to any of them; conservation is stated without that requirement.
