# Verification of the Cardano–Lightning relay

The relay swaps bitcoin between Lightning and cBTC on Cardano. It keeps two tables: swaps
(Lightning in, cBTC out) and offramps (cBTC in, Lightning out). HTTP handlers, Lightning payment
events, expiry monitors and crash recovery all work on these tables at the same time. Some of
their writes are compare-and-set, some are unconditional. This project models that system and
proves what it keeps over every run.

The model has two layers.

* **Protocols.** `OfframpProtocol` and `SwapProtocol` are state machines. A state holds one table,
  the live tasks, the startup phase, a clock that never goes back, and a record of what was done
  to the outside world. A step is one SQL statement or one answer of the outside world (the
  Lightning node, the Cardano operator), which is arbitrary. Tasks interleave freely, can be
  dropped between any two steps, and all vanish in a crash while the table stays. After a crash
  recovery starts again, while payment events already arrive. The theorems range over every
  state some run reaches.
* **Handlers.** `SwapDb` is the database as an object with two maps, one method per SQL statement.
  `OfframpHandlers` and `SwapHandlers` hold the handlers as methods on that object, branch by branch
  as in the source. Each is proved to take the database exactly where the protocol's task takes the
  table when nothing interleaves, and such a stretch is proved to be a run of the whole protocol.
  `OfframpRecovery` and `SwapRecovery` hold the recovery loops; for each, a run of recovery steps
  alone is proved to take the protocol's table where the loops take the database. So the protocol's
  theorems are about this code.

Beside these stand the self-contained parts: the rate limiter, the retry loops, the cancel loops
of the command line, the fee cache, the hex codec, the CBOR wrapper and the metrics.

The offramp invariant is stated per offramp, over a view made of its row and its event counts. Each
statement of a handler is one abstract move of that view (`OfframpSafety.Move`), the moves keep
the invariant, and every step touches the view of one offramp only.

Several properties are false as one might first state them. Each has its exact condition, or the
condition under which it holds and the runs that break it without:

* No FulfillInvoice is built for a swap the monitor has selected for cancelling. No `fulfill_swap`
  task ever does (`SwapTheorems.FulfillExcludesCancel`). Recovery still can if and only if the swap
  is Pending, Fulfilling or on recovery's list (`SwapRebuild.RebuildPossibleIff`).
* One cBTC transaction backs at most one payment: true when deposit calls naming the same
  transaction do not overlap, false for any two waiting offramps otherwise
  (`OfframpSolvency.CoveredByDistinctDeposits`, `OfframpReuse.OverlappingCallsReuse`).
* No two offramps share a payment hash: true when requests naming the same invoice do not overlap,
  false for any unused invoice otherwise (`OfframpHashes`).
* Active swaps stay within the cap: off by exactly the number of overlapping requests less one
  (`SwapCap.ActiveSwapsBounded`, `SwapCapTight.CapExceededByOverlap`).
* Active offramps stay within the cap: two unconditional writes can make a Failed offramp active
  again, so it is off by exactly the number of overlapping requests and of tasks about to make such a
  write, less one (`OfframpCap.ActiveOfframpsBounded`, `OfframpCapTight.RevivalExceedsCap`).
* The rate limiter's eviction is invisible, addresses are isolated, and at most twice the maximum
  passes in a window: true if and only if the maximum is not zero (`RateLimiter`).

Verify with `dafny verify dfyconfig.toml`.

## Model

| member | source | states |
|---|---|---|
| OfframpTheorems.PaidAtMostOnce | src/cardano_offramp.rs:148-214 | over every run with drops, crashes and recovery, `send_payment` is started at most once per offramp and only after the single compare-and-set into PayingLightning; a row that entered it never returns to AwaitingDeposit or PendingVerification, despite the unconditional reverts |
| OfframpTheorems.AwaitingMeansUntouched | src/cardano_offramp.rs:147-189 | while a row awaits its deposit no payment was ever started for it and no live task is between claiming it and paying |
| OfframpTheorems.OneWinner | src/recovery.rs:100-121 | at most one of `complete_offramp` and recovery ever takes an offramp out of PayingLightning by compare-and-set, once; if recovery does, no FulfillOfframp is ever built, then or after any later reboot; any FulfillOfframp implies `complete_offramp` had won |
| OfframpTheorems.DepositingWrittenByWinner | src/cardano_offramp.rs:231-249 | a row becomes DepositingToPool only by the winning compare-and-set, or by the winner's next statement while no other task owns the offramp |
| OfframpTheorems.EvidenceChain | src/mapping.rs:224-273 | in every reachable state a stored deposit hash implies a stored preimage; a preimage or a status from PayingLightning on implies a non-empty cBTC hash that was verified for the row's amount; none of the three is ever cleared or replaced |
| OfframpSafety.NextKeeps | src/cardano_offramp.rs:125-409 | every step of every task, of recovery, of startup and every crash keeps the offramp invariant |
| OfframpSafety.NextPersists | src/mapping.rs:224-273 | no step removes a row, changes its request, or clears stored evidence, and the record of effects only grows |
| OfframpSafety.RunKeeps | src/cardano_offramp.rs:26-409 | the invariant and the persistence of rows hold over whole runs |
| OfframpSafety.StepIsMove | src/cardano_offramp.rs:125-409 | each statement of a handler changes the view of exactly one offramp, by its abstract move, and no other offramp's |
| OfframpSafety.RecoveryIsMove | src/recovery.rs:83-176 | the same for each statement of recovery |
| OfframpSolvency.Solvent | src/cardano_offramp.rs:134-205 | in every reachable state the msat handed to `send_payment` are exactly 1000 per cBTC unit of the offramps paid, all of which were verified, so at most 1000 times the amounts of the verified offramps |
| OfframpSolvency.PaymentDue | src/cli/payment_cmds.rs:21-82 | a payment is only ever started by a deposit task, for an offramp not paid before whose row holds that task's transaction, and for exactly 1000 msat per cBTC unit of the row |
| OfframpSolvency.CoveredByDistinctDeposits | src/cardano_offramp.rs:137-189 | in runs where deposit calls naming one cBTC transaction do not overlap, each transaction backs at most one payment and all payments are covered by the worth of the distinct verified transactions |
| OfframpReuse.OverlappingCallsReuse | src/cardano_offramp.rs:137-155 | from any serving state, two overlapping deposit calls can have any two waiting offramps paid against one transaction |
| OfframpReuse.ReuseReachableIff | src/cardano_offramp.rs:137-155 | a run from an empty database pays twice against one transaction if and only if the cap admits a request at all |
| OfframpRuns.ComesUp | src/main.rs:754-855 | a relay with an empty database goes through recovery, starts the monitor, then serves |
| OfframpRuns.RequestServed | src/api.rs:699-722 | a request for 1 to 10,000,000,000 units and an unused invoice, which names 1000 msat per unit or no amount, can be served while there is room under the cap |
| OfframpRuns.InputChecks | src/api.rs:683-743 | exactly which requests and deposit calls get past the API, and that payment events are taken in every phase |
| OfframpRuns.StartupOrder | src/main.rs:703-855 | the API serves only after the monitor started, the monitor starts only after recovery is done, a crash leads back to the first scan with no task left, and time passes only by ticks |
| OfframpProtocol.AmountOkIff | src/cardano_offramp.rs:63-74 | the amounts of a request are accepted if and only if the amount is positive, 1000 times it fits 64 bits, and the invoice names no amount or exactly that |
| OfframpHashes.OneAnswer | src/cardano_offramp.rs:40-46 | in runs where requests naming one invoice do not overlap, no two offramps share a payment hash, so every lookup by payment hash has one answer |
| OfframpHashes.OverlappingRequestsShareHash | src/cardano_offramp.rs:40-119 | from any serving state with room under the cap, two overlapping requests for an unused invoice can both be stored |
| OfframpCap.OccupiedOnlyByInsert | src/mapping.rs:224-273 | no step adds to the offramps that are active or may be made active by a waiting unconditional write, except storing an admitted request |
| OfframpCap.ActiveOfframpsBounded | src/api.rs:699-708 | with at most k request handlers and d tasks waiting to write an active status at once, a relay started within its cap never has more than cap + k + d - 1 active offramps, in any interleaving and across crashes |
| OfframpCapTight.RevivalExceedsCap | src/cardano_offramp.rs:157-178 | the bound is reached: from any serving state at the cap with d offramps awaiting their deposit, d deposit calls, failed payments and k overlapping requests lead to cap + k + d - 1 active offramps |
| OfframpExpiry.ExpiryAligned | src/cardano_offramp.rs:79-119 | the stored expiry of an offramp is one sent on chain for its id, and everything the monitor ever tried to cancel had passed it; when ids are not reused, every expiry sent for the id |
| OfframpHandlers.AloneIsRun | src/cardano_offramp.rs:125-409 | a handler that runs with nothing in between is a run of the whole protocol, whatever other tasks wait |
| OfframpHandlers.HandleOfframpRequest | src/api.rs:699-722 | stores a row exactly when there is room under the cap and the request is granted, otherwise the table is unchanged; a protocol run |
| OfframpHandlers.RequestOfframp | src/cardano_offramp.rs:26-122 | grants a request exactly when no row has the payment hash, network, address and amounts fit and the chain accepted the entry under a new id; the stored row, with the expiry sent on chain; a protocol stretch |
| OfframpHandlers.ProcessOfframpDeposit | src/cardano_offramp.rs:125-217 | claims a row exactly when it awaits its deposit and the transaction is not another row's; the whole table for every outcome of verification and payment, all other rows unchanged; succeeds exactly when the deposit is verified, the amounts agree and the payment starts; a protocol run |
| OfframpHandlers.PayableIff | src/cli/payment_cmds.rs:21-62 | a row can be paid if and only if its amounts agree, and then exactly 1000 msat per unit |
| OfframpHandlers.CompleteOfframp | src/cardano_offramp.rs:220-307 | settles exactly the row it claims, which was PayingLightning with this payment hash: preimage stored, and Completed with the hash of the first accepted submission or Failed; sleeps at most 260 seconds; a protocol run |
| OfframpHandlers.HandleOfframpPaymentFailed | src/cardano_offramp.rs:310-364 | whatever refund and cancellation do, exactly the row found ends Failed, with the refund's outcome first in its message; a protocol run |
| OfframpHandlers.CancelOfframpOnChain | src/cardano_offramp.rs:367-409 | a submitted cancellation appends its hash to the row's message and marks it Failed, otherwise nothing changes; a protocol stretch |
| OfframpHandlers.MonitorExpiredOfframps | src/background.rs:136-148 | one round cancels each AwaitingDeposit or Failed row past its expiry once and touches no other row; a protocol run back to the next tick |
| OfframpMonitor.RoundIsExact | src/background.rs:136-148 | in every round of the monitor in every run, whatever interleaves, each offramp that at the select was AwaitingDeposit or Failed with its expiry set and passed is asked to be cancelled exactly once, and no other |
| OfframpRecovery.RecoverDepositingOfframps | src/recovery.rs:83-176 | the three loops take every table where a run of recovery steps with the same answers takes the protocol; a DepositingToPool row is completed exactly when its entry was not found or its transaction submitted |
| OfframpRecovery.OnePassIsRun | src/recovery.rs:83-176 | for every table and all outcomes of the retries, recovery steps alone, answered as the outcomes say, lead from the first scan to the end with the recovered table |
| OfframpRecovery.RetryDecides | src/recovery.rs:123-175 | in every run of recovery alone to its end, a DepositingToPool row was retried and is Completed if and only if the answer was not found or accepted, otherwise as it was |
| OfframpRecovery.RecoveryIsCrashIdempotent | src/recovery.rs:83-176 | recovery alone, killed at any steps and restarted any number of times, gives each PendingVerification and PayingLightning row the status of one uninterrupted pass, itself a run; none is left in either, a DepositingToPool row is completed or unchanged, nothing else is touched |
| OfframpRecovery.OnePassRecovers | src/recovery.rs:83-176 | the table of one pass meets the same description as one reached with crashes |
| SwapTheorems.FulfillExcludesCancel | src/cardano_swap.rs:97-140 | over every run, crashes included, no `fulfill_swap` task builds FulfillInvoice for a swap the monitor selected, before or after |
| SwapTheorems.FulfilledByOneTask | src/cardano_swap.rs:97-101 | at most one `fulfill_swap` task works on a swap at a time, and a Pending swap was never claimed |
| SwapTheorems.ExpiryAligned | src/cardano_swap.rs:35-44 | for every stored swap an expiry no later than the stored one was sent on chain for its invoice, and everything the monitor ever tried to cancel had passed one; when ids are not reused, every expiry sent for the id |
| SwapRebuild.RebuildPossibleIff | src/recovery.rs:16-71 | for a swap the monitor selected and recovery has not rebuilt, some run from here has recovery build FulfillInvoice for it if and only if it is Pending, Fulfilling or on recovery's list |
| SwapRebuild.ExclusionBreaksIff | src/recovery.rs:16-71 | a run from an empty database has recovery build FulfillInvoice for a selected swap if and only if the cap admits a swap at all |
| SwapRebuild.RunSettled | src/mapping.rs:129-149 | a swap that is neither Pending, Fulfilling nor on recovery's list stays so, and is never rebuilt, over every run |
| SwapSafety.NextKeeps | src/cardano_swap.rs:87-152 | every step of every task, of recovery, of startup and every crash keeps the swap invariant |
| SwapSafety.RunKeeps | src/cardano_swap.rs:21-152 | so do whole runs |
| SwapCap.ActiveOnlyByInsert | src/mapping.rs:129-149 | no step makes an inactive swap active again; only storing an admitted request adds one |
| SwapCap.ActiveSwapsBounded | src/api.rs:376-385 | with at most k request handlers at once, a relay started within its cap never has more than cap + k - 1 active swaps, in any interleaving and across crashes |
| SwapCapTight.CapExceededByOverlap | src/api.rs:376-443 | the bound is reached: from any serving state with one place left, k overlapping requests lead to cap + k - 1 active swaps |
| SwapHandlers.AloneIsRun | src/cardano_swap.rs:87-152 | a swap handler that runs with nothing in between is a run of the whole protocol |
| SwapHandlers.HandleSwapRequest | src/api.rs:376-443 | stores one Pending swap exactly when there is room under the cap, pool and address are in order, the chain accepted the invoice and the payment hash is new; the row, with the id and hash the chain answered; otherwise the table is unchanged; a protocol run |
| SwapHandlers.FulfillSwap | src/cardano_swap.rs:87-152 | touches only a Pending swap; past its expiry nothing is built and it fails, otherwise it is Completed with the hash of the first accepted submission or Failed with none; sleeps at most 260 seconds; a protocol run |
| SwapHandlers.MonitorExpiredSwaps | src/background.rs:87-128 | one round marks exactly those expired Pending swaps whose cancellation went out as Expired with its hash, and touches no other row; a protocol run back to the next tick |
| SwapMonitor.RoundIsExact | src/background.rs:87-128 | in every round of the monitor in every run, exactly the swaps that at the select were Pending past their expiry are selected and their invoices asked to be cancelled |
| SwapRuns.InputChecks | src/api.rs:367-374 | exactly which swap requests get past the API, and that payment events are taken in every phase |
| SwapRuns.StartupOrder | src/main.rs:703-855 | the same startup order for swaps |
| SwapRecovery.RecoverFulfillingSwaps | src/recovery.rs:16-71 | the loop takes every table where a run of recovery steps with the same answers takes the protocol; a Fulfilling swap is completed exactly when its invoice was not found or its transaction submitted |
| SwapRecovery.OnePassIsRun | src/recovery.rs:16-71 | for every table and all outcomes of the retries, recovery steps alone, answered as the outcomes say, lead from the scan to the end with the recovered table |
| SwapRecovery.RetryDecides | src/recovery.rs:16-71 | in every run of recovery alone to its end, a Fulfilling swap was retried and is Completed if and only if the answer was not found, then with no hash, or accepted, then with its hash, otherwise as it was |
| SwapRecovery.RecoveryIsCrashIdempotent | src/recovery.rs:16-71 | recovery alone, killed and restarted any number of times, leaves a Fulfilling swap completed or unchanged, never failed, and touches nothing else, as one pass does, itself a run |
| SwapDb.SwapDb.CountActiveSwaps | src/mapping.rs:354-361 | the number of Pending and Fulfilling rows |
| SwapDb.SwapDb.CountActiveOfframps | src/mapping.rs:364-371 | the number of rows neither Completed nor Failed |
| SwapDb.SwapDb.GetExpiredPending | src/mapping.rs:151-163 | each Pending row past its expiry exactly once, and no other |
| SwapDb.SwapDb.GetByStatus | src/mapping.rs:374-386 | each row with the status exactly once, and no other |
| SwapDb.SwapDb.GetOfframpByPaymentHash | src/mapping.rs:199-209 | some row with the payment hash, none only if there is none |
| SwapDb.SwapDb.GetOfframpByCbtcTx | src/mapping.rs:211-222 | some row with the cBTC hash, none only if there is none; rows without a hash never match |
| SwapDb.SwapDb.GetExpiredOfframps | src/mapping.rs:276-291 | each AwaitingDeposit or Failed row past a positive expiry exactly once, and no other |
| SwapDb.SwapDb.GetOfframpsByStatus | src/mapping.rs:389-403 | each row with the status exactly once, and no other |
| RateLimiter.RateLimiter.Check | src/api.rs:69-87 | answer and new entries of one call, as the sequences below use them |
| RateLimiter.EvictionInvisibleIff | src/api.rs:72-86 | for all request sequences in time order, the limiter that evicts gives every answer the one that never evicts gives, if and only if the maximum is not zero |
| RateLimiter.Isolated | src/api.rs:60-88 | requests from other addresses never change the answer an address gets |
| RateLimiter.IsolatedIff | src/api.rs:60-88 | that holds if and only if the maximum is not zero |
| RateLimiter.AtMostTwiceTheMax | src/api.rs:60-88 | in any stretch of time as long as the window an address gets at most twice the maximum |
| RateLimiter.WindowBoundIff | src/api.rs:60-88 | that holds if and only if the maximum is not zero |
| RateLimiter.FullMaximum | src/api.rs:78-86 | a request is accepted if fewer than the maximum of its address's requests were accepted within the last window |
| RateLimiter.FirstWindowExact | src/api.rs:78-86 | up to and including one window after its first request an address gets exactly its first max requests through |
| RateLimiter.EvictionExact | src/api.rs:72-75 | another address's entry is dropped exactly when there are more than 1000 and it has expired |
| Retry.SubmitWithRetry | src/helpers.rs:23-51 | returns the first answer among the first max that is not a retryable error, makes no further call, sleeps once between any two; succeeds exactly when some attempt is accepted after nothing but rejections that mention one of the three phrases anywhere |
| Retry.RetryableIff | src/helpers.rs:9-13 | a message is retryable if and only if it is a text, one of the three phrases, and a text |
| Retry.QueryWithRetry | src/helpers.rs:60-95 | returns the first hit among the first max, skipping errors and misses; without one the last query decides the error |
| Retry.QueryThenSubmit | src/cardano_swap.rs:110-140 | lookup then submission: submits exactly if the entry was found by the 24th query, succeeds exactly if one of three attempts is accepted after retryable rejections; the exact sleep, at most 260 seconds |
| CancelLoop.CancelExpired | src/cli/cardano_cmds.rs:145-202 | attempts the expired entries in order, each after a budget check at 180 seconds or earlier, stops early only past the budget; two successes are 30 seconds apart whatever lies between; total sleep at most 240 seconds; the count is the number of successes |
| CancelLoop.ExpiredCounts | src/cli/cardano_cmds.rs:154-155 | the selection keeps every expired entry as often as it occurs, and no other |
| CancelLoop.ExpiredInOrder | src/cli/cardano_cmds.rs:154-155 | it keeps their order |
| FeeCache.FeeCache.ApplyFeeEstimates | src/esplora.rs:93-152 | the sequence of stores is the target-by-target refresh of the cache |
| FeeCache.UpdatesTellTheTruth | src/esplora.rs:76-152 | each reported update is the fee now cached and says clamped exactly when the converted rate is above its target's cap; a target is reported exactly when it had an estimate |
| FeeCache.ClampedMonotone | src/esplora.rs:70-74 | the clamped conversion is monotone over the reals |
| FeeCache.RawMonotoneIff | src/esplora.rs:61-68 | the raw one is, except exactly from a rate of nothing to a positive rate below the floor |
| FeeCache.RawRoundsUp | src/esplora.rs:61-68 | a positive rate becomes 250 times itself rounded up, or the largest 32-bit number |
| FeeCache.ClampedRoundsUp | src/esplora.rs:70-74 | the stored fee is 253, the cap, or the rate rounded up, and when each |
| FeeCache.LastEstimateDecides | src/esplora.rs:93-152 | after any sequence of estimate maps each fee is its clamped last estimate, or its old value if there was none |
| FeeCache.CapIs | src/esplora.rs:50-59 | a configured cap of at least 253 or 5000, and at least 50000 for the two high-priority targets |
| FeeCache.FeesStayBounded | src/esplora.rs:50-152 | after any sequence of estimate maps every fee is at least 253, a fee with an estimate is within its cap, any other keeps its value |
| Hex.ToVec | src/hex_utils.rs:4-23 | the loop decodes full pairs of digits and fails on any other character |
| Hex.HexStr | src/hex_utils.rs:26-32 | the loop writes two lowercase digits per byte |
| Hex.DigitValueIff | src/hex_utils.rs:10-16 | a character stands for n if and only if it is the n-th hex digit in either case |
| Hex.RoundTrip | src/hex_utils.rs:4-32 | decoding what was encoded gives the bytes back |
| Hex.LowercaseForm | src/hex_utils.rs:4-32 | encoding what was decoded gives the lowercase form of the full pairs |
| Hex.OddDigitDropped | src/hex_utils.rs:4-23 | a valid text of odd length decodes as the text without its last digit |
| Cbor.UnwrapsIff | src/main.rs:606-621 | decoding one byte-string layer by section 3.1 of RFC 8949 gives exactly the script, with the shortest head, if and only if the script is shorter than 65536 bytes |
| Metrics.ToStatusCounts | src/api.rs:841-855 | the fold counts each class of statuses and the total |
| Metrics.GroupsCountRows | src/mapping.rs:326-352 | for every answer of the grouped query, summing groups counts the rows whose status is in the class |
| Metrics.SwapMetricsAgree | src/mapping.rs:326-361 | pending equals the active-swap query, completed and failed count the rows with those statuses, and they add up to the number of rows |
| Metrics.OfframpMetricsAgree | src/mapping.rs:340-371 | the same for offramps |

## Left out

- The Liquidity Manager contract and the operator that talks to it: every call has an arbitrary answer, which may also repeat an on-chain id.
- OfframpExpiry.ExpiryAligned: whether an entry had passed all expiries sent for its id is stated only for ids that are not reused with another expiry; the contract that numbers them is not part of this model. The same holds for SwapTheorems.ExpiryAligned.
- SwapRecovery.RecoveryIsCrashIdempotent: a swap that is found missing on chain is completed with no hash, so which hash a completed row holds depends on where recovery was killed; only status and frame are stated.
- OfframpHandlers.RequestOfframp: a handler on its own reads one clock value; that time passes between its statements is only in the protocol. The same holds for the other handlers.
- LDK internals: only that payment claimed, sent and failed events may arrive, at any time and any number of times.
- BOLT11 and bech32 parsing and the network, liquidity and address checks: an invoice is its payment hash and amount; a call refused by such a check ends without writing.
- The swap and the offramp protocol share a clock and a database but no row, so they are two state machines.
- The other input checks of the API handlers are the guards of the steps `HttpRequest` and `HttpDeposit`; the rate limiter in front of them is modelled on its own.
- Poisoning of the database mutex after a panic: the model lets the other tasks go on, which allows more runs.
- Retries inside CreateOfframp and CreateInvoice that leave extra on-chain entries: the protocol keeps the one that is answered; the loop itself is Retry.SubmitWithRetry.
- Wrap-around of i64 timestamps: clock plus expiry is an unbounded integer.
- FeeCache: rates are reals, so f64 rounding is not modelled; a non-finite f64 is its own case.
- Wording of error texts that come from outside, such as the reason of a failed submission: a fixed text stands for them.
- The cancel loop for offramps differs from the one for swaps only in what it cancels; both are CancelLoop.CancelExpired.
- Exactly-once refunds and exclusion of cancelling and paying an offramp: no guard in the code decides them.
- Wallet, Esplora and bitcoind access, HTTP routing, authentication, argument parsing, files and printing: input and output around the protocol, with no state of their own that a run depends on.
