# Verified core of the grid and martingale trading platform

A Dafny model of the parts of the platform whose correctness is hard to see from the code: the drawdown-constrained
portfolio optimiser, the billing listener as a protocol over a failing store, the combination and enumeration of
portfolios, the dynamic grid simulation with its scaled cache, and the streaming market computations.

Conventions:

- `f64` and Python floats are exact reals. Where the code tests `is_finite`, the datatype `Num` adds the two infinities
  and not-a-number, with their arithmetic. `Decimal` rounding is written out, half-even: eight places in the grid
  builder, six in the saved weights.
- Loops are `while`/`for` loops with invariants, objects with mutable fields are classes, and each is proved equal to a
  specification function; the properties are then proved about that function for all inputs, runs or interleavings.
- Times are integers. Errors are values of a `Result`-like datatype.
- The solver, the chain executor, the chain's answers and every store call are inputs with a stated contract. Store
  contracts follow the PostgreSQL repositories in `crates/shared-db`, and every store call may fail before or after
  taking effect.

Findings:

- The cuts the optimiser's loop adds keep every admissible portfolio exactly for drawdown limits of at most 100 percent
  (`CuttingLimits.LoopKeepsAdmissibleIff`). For every limit above that there is a case with an admissible portfolio that
  the loop gives up as unsolvable after one cut (`CuttingLimits.SolveLostCase`). The script's case table stays below 100.
- The description of the optimiser says that one symbol's weight is always capped, and the cap is saved with every case;
  the code adds the per-symbol rows only when more than one symbol is required. The cap holds for every portfolio the
  program admits exactly then (`CuttingLimits.CapHoldsIffSeveralSymbols`; `CuttingLimits.UncappedAnswer` is an answer
  with everything in one symbol). Where it holds, three symbols carry weight (`CuttingLimits.CapDemandsThreeSymbols`), so
  requiring two symbols is requiring three.
- The weights that are saved add up to exactly 100 percent because the last one is topped up. With 24 or more active
  entries the last one can be saved as a negative weight, with 22 as zero (`SavedWeights.SavedNonNegativeIff`,
  `SavedWeights.SavedPositiveIff`).
- Sweep transfers are updated by source address. A job with two transfers from one address stores one of the two hashes
  twice (`SweepProtocol.SharedAddressLosesHash`); each hash is kept exactly when the addresses are distinct.
- A claimed sweep job that loses its worker is never picked up again: it stays submitting forever, exactly when no
  worker holds it (`SweepAbandoned.StuckIffAbandoned`). A crash, a claim stored but reported as failed, and a lost last
  write each do it. A worker lost between a transfer and its record leaves a transfer whose hash is never stored
  (`SweepAbandoned.CrashAfterSending`).
- A sweep job can still be confirmed exactly when it is pending, submitted or confirmed, or its worker has met neither a
  refusal nor a failed write (`SweepOutcomes.ConfirmableIff`): one write reported as failed is enough to lose it, even
  when every transfer was sent.
- The leasing pool is not safe for every order of request times (`AddressPool.BackwardsTimeLeasesTwice`). It never
  grants an address before its earlier lease ends, for all pools and leases, exactly when the times have no peak: they
  fall to their lowest value and never go back from there (`LeaseTimes.SafeIffNoPeak`). Two leases of one address never
  share an instant exactly when no rise is larger than the distance back (`LeasePools.ApartIffNoSpike`). No address
  need be listed twice for either to fail.
- A one-day plan renewed late in its grace period ends before it was paid (`Entitlement.DurationSafeIffTwoDays`).
- A plan with a single level per side can be accepted with a level on the centre, by both bilateral builders
  (`GridBuilder.FixedLevelOnCentre`, `GridBuilder.GeometricLevelsOnCentre`). When a single level is accepted and when it
  brackets the centre is decided from centre and spacing (`GridBuilder.SingleFixedLevel`,
  `GridBuilder.SingleGeometricAccepted`, `GridBuilder.SingleGeometricBrackets`).
- The momentum builder looks ahead for exactly one lookback, -1, where Python's negative list positions reach the last
  day (`DailyBuilders.MomentumCausalIff`); below -1 it always fails.
- The combined value at the start is the capital times the total allocation, for every allocation, exactly when every
  candidate shows a usable starting equity there (`EquityCurves.FirstValueIff`, and of the first point of the merged
  curve `EquityCurves.FirstPointIff`). A first equity of zero or a repeated first timestamp breaks it
  (`EquityCurves.ZeroStartIsLost`, `EquityCurves.RepeatedStartIsLost`).
- Selecting distinct members from a cyclic order does not need the rows of different symbols to be disjoint
  (`Combinations.RepeatedDistinct`).
- Two error branches and one stand-in cannot be reached: the repeated-constraint error with an exact solver, the
  "streams have no timestamps" error of the grid streams, and the flat stand-in of the trend stream.

Layout: `Common`, `Arithmetic`, `Decimals`, `Filtering` and `Timeline` hold shared vocabulary; every other file is one
component or one part of it. `dafny verify dfyconfig.toml` checks all of them.

## Model

| member | source | states |
|---|---|---|
| `CuttingPlane.SolveCase` | scripts/optimize_martingale_lp_portfolios.py:341-399 | For any solver that returns feasible points optimal up to a gap: the loop goes through a run of relaxations, each forbidding the first worst peak/trough pair or, when that is forbidden already, the fresh pairs of the worst times, and ends there as its outcome says; returned weights meet the base constraints, the cap of 40 percent per symbol when several symbols are required, and the drawdown limit plus tolerance at every time; for limits up to 100 their final equity is within the gap of every admissible portfolio; the loop returns within T(T+1)/2 + 1 iterations for T times unless the fixed cap is smaller; with an exact solver the repeated-constraint error never occurs and each iteration added exactly one cut |
| `CuttingPlane.CutImplied` | scripts/optimize_martingale_lp_portfolios.py:350-398 | Weights that meet the drawdown limit satisfy every cut the loop could add, for limits up to 100 |
| `CuttingLimits.LoopKeepsAdmissibleIff` | scripts/optimize_martingale_lp_portfolios.py:350-398 | Over all problems with a given limit, all sound solvers (exact ones only, or all) and all relaxations the loop reaches with them: no admissible portfolio is ever cut off, if and only if the limit is at most 100 |
| `CuttingLimits.SolveLostCase` | scripts/optimize_martingale_lp_portfolios.py:341-399 | For every limit above 100 a two-candidate problem with an admissible portfolio on which the loop, with any exact solver without a gap, fails as unsolvable |
| `CuttingLimits.OtherIsAdmissible` | scripts/optimize_martingale_lp_portfolios.py:350-363 | That problem has a portfolio that meets all constraints and the limit |
| `CuttingLimits.CutForbidsAll` | scripts/optimize_martingale_lp_portfolios.py:379-398 | The one cut the loop adds to it is violated by all feasible weights |
| `CuttingLimits.RunMatches` | scripts/optimize_martingale_lp_portfolios.py:351-398 | Over every run of the loop the rows are exactly the cuts of the added keys, each a pair of a peak and a later time |
| `CuttingLimits.CapHoldsIffSeveralSymbols` | scripts/optimize_martingale_lp_portfolios.py:256-313 | Every portfolio the program admits keeps each symbol within 40 percent, over all problems with a given number of required symbols, if and only if that number is more than one |
| `CuttingLimits.UncappedAnswer` | scripts/optimize_martingale_lp_portfolios.py:256-268 | With one required symbol an optimal answer, within the drawdown limit, holds everything in one symbol |
| `CuttingLimits.CapDemandsThreeSymbols` | scripts/optimize_martingale_lp_portfolios.py:293-330 | Capped weights put a positive weight on at least three symbols |
| `CuttingLimits.CapIsReached` | scripts/optimize_martingale_lp_portfolios.py:293-313 | Two symbols with 40 percent each and one with the rest are admitted |
| `SavedWeights.ActiveEntries` | scripts/optimize_martingale_lp_portfolios.py:366-367 | The entries above the threshold, each once, by descending weight and, among equals, by position |
| `SavedWeights.SavedSumsToHundred` | scripts/optimize_martingale_lp_portfolios.py:425-429 | The saved weights add up to exactly 100, and the last one is negative if and only if the others, rounded, exceed 100 |
| `SavedWeights.LastAbove` | scripts/optimize_martingale_lp_portfolios.py:425-429 | The last saved weight is more than ten millionths of a percent less half of one for each other entry |
| `SavedWeights.SavedNonNegativeIff` | scripts/optimize_martingale_lp_portfolios.py:366-429 | Over all answers of the loop with at most n active entries no saved weight is negative, if and only if n is at most 23 |
| `SavedWeights.SavedPositiveIff` | scripts/optimize_martingale_lp_portfolios.py:366-429 | Every saved weight is positive, if and only if n is at most 21 |
| `SavedWeights.NegativeWeightSaved` | scripts/optimize_martingale_lp_portfolios.py:425-429 | An answer with 24 entries whose last one is saved as -0.000001 percent |
| `CuttingPlane.ViolatedPairIsFresh` | scripts/optimize_martingale_lp_portfolios.py:379-398 | A peak/trough pair still violating the limit at weights that satisfy all cuts has not been added before; this is the termination measure |
| `CuttingPlane.LimitSatisfiesCuts` | scripts/optimize_martingale_lp_portfolios.py:353-398 | Every portfolio within the limit stays feasible for every relaxed program of the run |
| `CuttingPlane.RelaxedOptimumIsOptimal` | scripts/optimize_martingale_lp_portfolios.py:354-378 | A gap-optimal point of a relaxed program is gap-optimal among all portfolios within the limit |
| `CuttingPlane.PairsSize` | scripts/optimize_martingale_lp_portfolios.py:351-398 | There are n(n+1)/2 pairs the set of added keys can hold |
| `CuttingPlane.Curves` | scripts/optimize_martingale_lp_portfolios.py:355-357 | Equity, running maximum and drawdown fraction of feasible weights, with peaks positive so that the quotient is defined |
| `CuttingPlane.ArgMax` | scripts/optimize_martingale_lp_portfolios.py:358-379 | The first index holding the maximum |
| `CuttingPlane.WorstThirty` | scripts/optimize_martingale_lp_portfolios.py:382-384 | At most 30 different times over the limit, in ascending order of drawdown, and whatever is left out is no worse than all that is kept |
| `CuttingPlane.AddWorst` | scripts/optimize_martingale_lp_portfolios.py:381-393 | The fallback branch adds exactly the pairs of the worst times with their first peaks, keeps rows and keys in step, and counts the fresh ones |
| `CuttingPlane.PeakIsMaximum` | scripts/optimize_martingale_lp_portfolios.py:356-379 | The running peak used in the drawdown is the equity at the first maximum used for the cut |
| `CuttingPlane.PeakPositive` | scripts/optimize_martingale_lp_portfolios.py:354-357 | Feasible weights have a positive peak at every time |
| `SweepProtocol.NextKeepsInv` | apps/billing-chain-listener/src/main.rs:175-397 | Every step of every worker, with any store or executor failure, keeps the protocol invariant |
| `SweepProtocol.RunKeepsInv` | apps/billing-chain-listener/src/main.rs:175-397 | The invariant holds after every interleaving of any number of submission and confirmation workers, crashes and new jobs |
| `SweepProtocol.ExecutorCalledAtMostOnce` | apps/billing-chain-listener/src/main.rs:187-305 | Over every interleaving the executor is called for the transfers of a job in order, for each at most once, and never after a refusal |
| `SweepProtocol.SubmittedMeansAllSent` | apps/billing-chain-listener/src/main.rs:187-305 | A job is submitted or confirmed only if each of its transfers was sent and recorded |
| `SweepProtocol.ConfirmedMeansAllConfirmed` | apps/billing-chain-listener/src/main.rs:325-396 | A job is confirmed only if each transfer is confirmed, each through a positive answer of the chain for its stored hash |
| `SweepProtocol.OwnHashRecordedIffDistinctAddresses` | crates/shared-db/src/postgres/billing.rs:973-1000 | Every transfer of a submitted job carries the hash of its own transaction if and only if no two transfers share a source address |
| `SweepProtocol.SharedAddressLosesHash` | crates/shared-db/src/postgres/billing.rs:973-1000 | A failure-free run over a job with two transfers from one address that ends submitted with the second hash lost |
| `SweepAbandoned.AbandonedForever` | apps/billing-chain-listener/src/main.rs:175-305 | A claimed job without a worker keeps its status, its transfers and its executor calls over every continuation |
| `SweepAbandoned.StuckIffAbandoned` | apps/billing-chain-listener/src/main.rs:175-397 | A claimed job stays submitting over every continuation if and only if no worker holds it |
| `SweepAbandoned.CrashAbandons` | apps/billing-chain-listener/src/main.rs:187-305 | A worker that dies between its claim and its last write leaves its job so |
| `SweepAbandoned.CrashAfterClaim` | apps/billing-chain-listener/src/main.rs:187-193 | A concrete run: the job stays submitting with nothing sent, over every continuation |
| `SweepAbandoned.CrashAfterSending` | apps/billing-chain-listener/src/main.rs:195-260 | A concrete run: a transfer is out and its hash is never stored, over every continuation |
| `SweepAbandoned.LostClaimAbandons` | apps/billing-chain-listener/src/main.rs:187-193 | So does a claim that is stored but reported as failed |
| `SweepAbandoned.LostFinishAbandons` | apps/billing-chain-listener/src/main.rs:260-305 | So does a last write that is lost, its result being ignored |
| `SweepOutcomes.ConfirmableIff` | apps/billing-chain-listener/src/main.rs:175-397 | From every reachable state: some continuation confirms a job if and only if it is pending, submitted or confirmed, or claimed by a worker that has met neither a refusal nor a write reported as failed |
| `SweepOutcomes.SubmittedCanConfirm` | apps/billing-chain-listener/src/main.rs:325-396 | From every state the invariant allows, a failure-free pass of an idle confirmation worker with positive answers confirms a submitted job |
| `SweepOutcomes.PendingCanSubmit` | apps/billing-chain-listener/src/main.rs:175-305 | A failure-free pass of an idle submission worker, every transfer answered, submits a pending job |
| `SweepOutcomes.HeldCanSubmit` | apps/billing-chain-listener/src/main.rs:195-305 | So does the worker that holds a job, from wherever it is, unless it met a refusal or a failed write |
| `SweepOutcomes.DoomLasts` | apps/billing-chain-listener/src/main.rs:175-397 | A failed job, and a claimed one whose worker is gone or met such a failure, is never submitted or confirmed over any continuation |
| `SweepOutcomes.RefusalFails` | crates/shared-db/src/postgres/billing.rs:1001-1093 | After every run, a stored refusal leaves every row of the refused address failed and every other row as it was, and the last write fails the job |
| `Deposits.PaidIff` | apps/billing-chain-listener/src/processor.rs:54-282 | A call reports a match if and only if the deposit is new or confirming, exactly one unpaid order has the same chain, asset, normalised address and numeric amount and was requested before and leased until after the observation, the confirmations suffice, the plan exists and no store call it needs failed |
| `Deposits.PaymentEffect` | apps/billing-chain-listener/src/processor.rs:109-160 | A reported match changes that one order, that one deposit and one membership period, and nothing else |
| `Deposits.CandidateIsOnlyOrder` | apps/billing-chain-listener/src/processor.rs:85-111 | A single valid candidate is the only order in the table the transfer pays for |
| `Deposits.ParsedAmount` | apps/billing-chain-listener/src/processor.rs:74-75 | The canonical amount that is stored and compared denotes the observed number |
| `DepositRuns.EveryWriteMoves` | apps/billing-chain-listener/src/processor.rs:77-282 | In every run, whatever fails, each write moves each deposit along none, confirming, matched or none, (observed,) under review, approved or rejected, or leaves it unchanged |
| `DepositRuns.RunKeeps` | apps/billing-chain-listener/src/processor.rs:78-83 | Over every run a matched, approved or rejected deposit never changes again and a paid order stays paid |
| `DepositRuns.ReportSettles` | apps/billing-chain-listener/src/processor.rs:109-225 | A reported match was for an unpaid order and an unsettled deposit and leaves both settled, tied to each other |
| `DepositRuns.MatchedAtMostOnce` | apps/billing-chain-listener/src/processor.rs:77-147 | Over every run no two reported matches share an order or a normalised chain and transaction hash |
| `DepositRuns.RunStaysBalanced` | crates/shared-db/src/postgres/billing.rs:612-696 | Over every run with any failures, mixed with order creation, address assignment, manual decisions and the writes of the API server's own matching endpoint, paid orders and settled deposits stay in one-to-one correspondence |
| `DepositRuns.OnePaymentPerOrder` | crates/shared-db/src/postgres/billing.rs:612-696 | In a balanced ledger the settled deposits are exactly the payers of the paid orders and equal in number |
| `DepositStore.Store.ProcessObservedTransfer` | apps/billing-chain-listener/src/processor.rs:54-282 | The imperative call, with every early return and every failing store call, computes the reaction the run theorems speak about |
| `DepositStore.Store.FindCandidates` | apps/billing-chain-listener/src/processor.rs:85-107 | The two filters in sequence give the address candidates and the paying orders |
| `DepositStore.ParseTransfer` | apps/billing-chain-listener/src/processor.rs:58-76 | Normalisation, for any Unicode upper-casing that is the usual one in ASCII, and the first of the input errors that applies |
| `Deposits.OnChainIdempotent` | apps/billing-chain-listener/src/processor.rs:349-361 | A normalised address or hash is its own normal form, so a stored key is found again by its own text |
| `Deposits.ReasonMeaning` | apps/billing-chain-listener/src/processor.rs:228-261 | What each review reason says about the order table, each an if and only if: two orders paid for, none at the address, one there for another asset, all leases over (or a lone order with the right amount), or an open order with another amount |
| `Deposits.ReasonIsTrue` | apps/billing-chain-listener/src/processor.rs:228-261 | A review for an expired order means that every lease at the address is over, and one for the amount that some amount differs |
| `Deposits.ReasonNames` | apps/billing-chain-listener/src/processor.rs:231-259 | The order a review names is the first at the address, and when it names none |
| `DepositReplies.DuplicateIff` | apps/billing-chain-listener/src/processor.rs:77-230 | A duplicate is reported if and only if the deposit is known and no longer confirming, or confirming without exactly one order it pays; nothing changes |
| `DepositReplies.ReviewIff` | apps/billing-chain-listener/src/processor.rs:228-281 | A review is answered if and only if the deposit is not known, not exactly one order is paid for and no store call needed failed, with the reason and the order read off the table; the row stored is given field by field and nothing else changes |
| `DepositReplies.AwaitingIff` | apps/billing-chain-listener/src/processor.rs:110-135 | Waiting for confirmations is answered for an order if and only if it is the one order paid for, the deposit is new or confirming, there are too few confirmations and no store call needed failed; the row stored is given field by field and nothing else changes |
| `DepositReplies.PlanNotConfiguredIff` | apps/billing-chain-listener/src/processor.rs:110-141 | A missing plan is reported if and only if the plan is all that is missing; the deposit stays confirming |
| `DepositReplies.PaidForIff` | apps/billing-chain-listener/src/processor.rs:54-225 | A match is reported for the one order the transfer pays if and only if the deposit is open, the confirmations suffice, the plan exists and the calls work |
| `DepositReplies.PaidMeansOnePaid` | apps/billing-chain-listener/src/processor.rs:85-111 | And for no other |
| `DepositReplies.InvalidIff` | apps/billing-chain-listener/src/processor.rs:58-76 | Which observations are refused, and for which field |
| `DepositReplies.UnknownIsReviewed` | apps/billing-chain-listener/src/processor.rs:259-281 | With empty tables every well-formed transfer is stored for review as an unknown order |
| `DepositReplies.OnChainEqualIff` | apps/billing-chain-listener/src/processor.rs:349-361 | Two texts have one normal form if and only if they agree after trimming, letter for letter, up to ASCII case on ETH and BSC |
| `DepositReplies.SameKeyIff` | apps/billing-chain-listener/src/processor.rs:338-361 | Two observations are one deposit if and only if they name the same chain and the same hash on it |
| `DepositReplies.WaitsIff` | apps/billing-chain-listener/src/processor.rs:85-97 | Which unpaid orders wait at the address of a transfer, in terms of what was observed |
| `DepositReplies.IsPaidIff` | apps/billing-chain-listener/src/processor.rs:98-108 | Which of them it pays, in terms of what was observed |
| `DepositReplies.OnlyPaidIff` | apps/billing-chain-listener/src/processor.rs:98-111 | And when it is exactly one |
| `DepositReplies.RequiredIsNeeded` | apps/billing-chain-listener/src/processor.rs:370-389 | The confirmations demanded of each chain: the configured number from 1 to 2^32 - 1, or else twelve |
| `DepositReplies.ReasonAgrees` | apps/billing-chain-listener/src/processor.rs:232-261 | The classification of the code is the reason read off the order table |
| `DepositReplies.NamesAgrees` | apps/billing-chain-listener/src/processor.rs:232-261 | The order it names is the first that waits, and when it names none |
| `Filtering.SelectTwice` | apps/billing-chain-listener/src/processor.rs:86-107 | Filtering by address and then by the stricter payment condition is filtering by the latter |
| `Entitlement.PaymentMovesEndForward` | apps/billing-chain-listener/src/processor.rs:422-439 | Whatever record is stored, a positive duration moves the active end strictly forward, with 48 hours of grace behind it |
| `Entitlement.EndNeverDecreases` | apps/billing-chain-listener/src/processor.rs:422-439 | Over every run of payments the active end strictly increases |
| `Entitlement.EndIsRestartPlusDurations` | apps/billing-chain-listener/src/processor.rs:422-439 | For every run the active end is the last payment made after a lapsed grace period plus all durations paid from it on |
| `Entitlement.LastRestartIsLast` | apps/billing-chain-listener/src/processor.rs:427-435 | That payment did come too late, and no later one did |
| `Entitlement.TimelyPaymentsAddUp` | apps/billing-chain-listener/src/processor.rs:422-439 | When each payment falls within the previous grace end, the active end is the first payment plus the sum of all durations |
| `Entitlement.PaidMeansActive` | apps/billing-chain-listener/src/processor.rs:422-439 | With durations of at least 48 hours the active end is never before the payment just made |
| `Entitlement.DurationSafeIffTwoDays` | apps/billing-chain-listener/src/processor.rs:422-439 | A duration has that property for every earlier history if and only if it is at least two days |
| `AddressPool.Allocator.Assign` | apps/billing-chain-listener/src/address_pool.rs:26-55 | Purges expired leases, grants the first free address from the cursor on and moves the cursor behind it, or refuses |
| `AddressPool.NoDoubleLease` | apps/billing-chain-listener/src/address_pool.rs:26-55 | For request times that never go back no address is held by two overlapping leases |
| `AddressPool.RefusedIffAllHeld` | apps/billing-chain-listener/src/address_pool.rs:26-55 | A request is refused if and only if every address is held by an unexpired lease |
| `AddressPool.BackwardsTimeLeasesTwice` | apps/billing-chain-listener/src/address_pool.rs:26-55 | Three requests, one of them back in time, that lease one address twice at once |
| `LeaseTimes.SafeIffNoPeak` | apps/billing-chain-listener/src/address_pool.rs:26-55 | For every list of request times: over all pools and all positive leases an address is never granted before its earlier lease ends, if and only if no request lies below an earlier one that had risen above one before it |
| `LeaseTimes.NoPeakIsSafe` | apps/billing-chain-listener/src/address_pool.rs:31-32 | Without a peak the lease table is exact from the last request on: while times fall nothing is purged |
| `LeaseTimes.PeakIsUnsafe` | apps/billing-chain-listener/src/address_pool.rs:31-52 | With a peak, a pool of different addresses and a lease for which the run regrants an address too early |
| `LeasePools.ApartIffNoSpike` | apps/billing-chain-listener/src/address_pool.rs:26-55 | For every list of request times: over all address lists, or all of different addresses, and all positive leases, no two leases of one address share an instant, if and only if no rise from one request to another is larger than the distance from the first to a still later, lower one |
| `LeasePools.SpikeOverlaps` | apps/billing-chain-listener/src/address_pool.rs:26-55 | For every such rise a number of different addresses and a lease for which one of them is leased twice at once |
| `LeasePools.HoldingNested` | apps/billing-chain-listener/src/address_pool.rs:31-54 | Over every list of requests a pool with one address more holds the same leases and at most one more |
| `LeasePools.RunOwners` | apps/billing-chain-listener/src/address_pool.rs:31-54 | The table of a pool of different addresses belongs, one lease each, to the requests that the count of free addresses admits, whatever the addresses |
| `LeasePools.RoundGoesOn` | apps/billing-chain-listener/src/address_pool.rs:36-54 | While no earlier lease ends, requests take the free addresses in turn from the cursor on |
| `AddressPool.DistanceShrinks` | apps/billing-chain-listener/src/address_pool.rs:33-52 | A grant to someone else brings the cursor strictly closer to a waiting address |
| `AddressPool.NoStarvation` | apps/billing-chain-listener/src/address_pool.rs:26-55 | An address free throughout as many consecutive requests as the pool has addresses is granted by one of them |
| `AddressPool.GrantsLast` | apps/billing-chain-listener/src/address_pool.rs:40-52 | Over every run each grant is of an address of the pool, starts at a request and lasts exactly one lease |
| `Amounts.CanonicalizeAmount` | apps/billing-chain-listener/src/order_matcher.rs:26-58 | Accepts exactly the texts that denote a number with at most eight places and returns the one canonical text of that number |
| `Amounts.RenderRoundTrip` | apps/billing-chain-listener/src/order_matcher.rs:26-58 | Canonical texts are accepted and denote the number they were made from |
| `Amounts.EightPlaces` | apps/billing-chain-listener/src/order_matcher.rs:26-58 | A canonical text has eight decimals behind its dot, and its digits read as one number are the units |
| `Amounts.CanonicalEqualIffSameNumber` | apps/billing-chain-listener/src/order_matcher.rs:26-58 | Two accepted texts have equal canonical forms if and only if they denote the same number |
| `Amounts.AmountsMatch` | apps/billing-chain-listener/src/processor.rs:363-368 | Numeric equality of two accepted amounts |
| `Amounts.DecimalString` | apps/billing-chain-listener/src/rpc.rs:696-715 | Pads and pops to the shortest text of amount over ten to the decimals |
| `Amounts.PrintedAcceptedIffExact` | apps/billing-chain-listener/src/rpc.rs:696-715 | A printed token amount canonicalises if and only if ten to the decimals divides amount times ten to the eighth, and then denotes exactly that quotient |
| `Amounts.MatchesAssignment` | apps/billing-chain-listener/src/order_matcher.rs:60-68 | True exactly for equal chain, address and number; an error exactly when chain and address agree and one amount is malformed |
| `EquityCurves.CombineEquityCurves` | apps/backtest-engine/src/portfolio_search.rs:1712-1803 | The result is the empty curve, the single-member shortcut or the merged curve |
| `EquityCurves.Merge` | apps/backtest-engine/src/portfolio_search.rs:1765-1802 | The cursor loop computes, at every timestamp, the allocation-weighted sum of each member's last equity over its initial equity |
| `EquityCurves.SampleIsLastPoint` | apps/backtest-engine/src/portfolio_search.rs:1771-1779 | On a curve in time order a member shows its last point at or before the time |
| `EquityCurves.SampleBeforeCurve` | apps/backtest-engine/src/portfolio_search.rs:1766-1779 | Before its first point a member shows its initial equity |
| `EquityCurves.ShareIsProportional` | apps/backtest-engine/src/portfolio_search.rs:1783-1795 | A member is worth its allocated capital times its equity over its starting equity |
| `EquityCurves.StartOrMargin` | apps/backtest-engine/src/portfolio_search.rs:1741-1750 | The starting equity is the first one, or the planned margin where that is missing or no positive number |
| `EquityCurves.MergedTimestamps` | apps/backtest-engine/src/portfolio_search.rs:1750-1763 | The output timestamps are the strictly increasing union of the members' timestamps |
| `EquityCurves.FirstValueIsCapital` | apps/backtest-engine/src/portfolio_search.rs:1739-1748 | Where every member shows its usable starting equity the combined value is the capital times the total allocation |
| `EquityCurves.StartsAtInitial` | apps/backtest-engine/src/portfolio_search.rs:1739-1748 | So it is up to the first point, if that is usable and its timestamp does not repeat |
| `EquityCurves.FirstValueIff` | apps/backtest-engine/src/portfolio_search.rs:1739-1748 | For every allocation the value is the capital times the total allocation if and only if every candidate shows a usable starting equity |
| `EquityCurves.FirstPointIff` | apps/backtest-engine/src/portfolio_search.rs:1739-1802 | The first point of the merged curve is the capital times the total allocation, for every allocation, if and only if every candidate shows a usable starting equity at the earliest time of all |
| `EquityCurves.ZeroStartIsLost` | apps/backtest-engine/src/portfolio_search.rs:1739-1802 | Two candidates with half the capital each, one starting at zero equity with a usable margin: the merged curve starts at half the capital |
| `EquityCurves.RepeatedStartIsLost` | apps/backtest-engine/src/portfolio_search.rs:1739-1802 | The same for a candidate that repeats its first timestamp |
| `EquityCurves.ShortcutAgreesIff` | apps/backtest-engine/src/portfolio_search.rs:1719-1737 | The single-member shortcut equals the general path if and only if the timestamps strictly increase and the starting equity is usable, or else both are zero throughout |
| `EquityCurves.MergedLossesWithin` | apps/backtest-engine/src/portfolio_search.rs:1771-1802 | If no positive member draws down more than d percent, neither does the combined curve, which stays positive |
| `EquityCurves.DiversificationBoundsDrawdown` | apps/backtest-engine/src/portfolio_search.rs:1719-1802 | The maximum drawdown of the returned curve, on either path and whatever its timestamps, never exceeds the largest member drawdown |
| `Drawdown.MaxDrawdownPct` | scripts/hybrid_martingale_frontier_probe.py:74-79 | The loop finds the least bound of all losses from the running peak |
| `Drawdown.PeaksCoverPairs` | scripts/hybrid_martingale_frontier_probe.py:74-79 | Losses from the running peak are within d if and only if the loss between any earlier and later time is |
| `Combinations.Enumerator.Enumerate` | apps/backtest-engine/src/portfolio_search.rs:1419-1484 | The recursion does the specified work in order until the budget is spent and restores the working prefix |
| `Combinations.AllWorkIsTuples` | apps/backtest-engine/src/portfolio_search.rs:1461-1483 | That work is the work of the position tuples, in order |
| `Combinations.TuplesAreIncreasing` | apps/backtest-engine/src/portfolio_search.rs:1461-1483 | Only strictly increasing tuples of the target length are visited |
| `Combinations.EveryTupleVisited` | apps/backtest-engine/src/portfolio_search.rs:1461-1483 | Every strictly increasing tuple is visited |
| `Combinations.TuplesDistinct` | apps/backtest-engine/src/portfolio_search.rs:1461-1483 | No tuple is visited twice |
| `Combinations.PerformWithinBudget` | apps/backtest-engine/src/portfolio_search.rs:1431-1458 | The count never passes the budget, and below the budget all work is done |
| `CombinationWork.EvaluatedIff` | apps/backtest-engine/src/portfolio_search.rs:1419-1484 | A search that ends below its budget has evaluated a portfolio under a template if and only if it is the list of indices at some strictly increasing positions, of the target length, with two entries of different symbols, and the template has that length; one that spends its budget has evaluated only such |
| `CombinationWork.AllWorkIsWanted` | apps/backtest-engine/src/portfolio_search.rs:1431-1483 | The same of all the work there is |
| `CombinationWork.EvaluatedOnce` | apps/backtest-engine/src/portfolio_search.rs:1419-1484 | For indices without repeats, as the caller lists them, nothing is evaluated twice |
| `Combinations.RepeatedDistinct` | apps/backtest-engine/src/portfolio_search.rs:1159-1186 | The cyclic selector returns distinct rows of the listed symbols, exactly as many as asked for or all there are; each is the first row not yet taken, in rotation from the position, of the next symbol in turn that has one, round and round from the offset on |
| `DynamicGrid.FundingConserves` | scripts/dgt_dynamic_grid_probe.py:114-122 | Funding a grid moves input minus wallet by exactly one principal and leaves the wallet non-negative |
| `DynamicGrid.ResetIsCentred` | scripts/dgt_dynamic_grid_probe.py:124-132 | A reset puts the price strictly between the outer levels and the cursor strictly inside |
| `DynamicGrid.SegmentConserves` | scripts/dgt_dynamic_grid_probe.py:140-167 | Each segment keeps the balance of inputs, earnings, wallet and principals, leaves the cursor strictly inside the grid and fires at most one exit, which enters the history with its centre, price and crossed lines |
| `DynamicGrid.RunConserves` | scripts/dgt_dynamic_grid_probe.py:114-167 | In every run total input plus what the exits earned, in closed form, equals the wallet plus one principal for the open grid and one per exit below |
| `DynamicGrid.ProfitIsEarned` | scripts/dgt_dynamic_grid_probe.py:134-162 | An exit earns, for each line that pays, one share of the principal times the spacing less two fees |
| `GridWorth.PointIsWorth` | scripts/dgt_dynamic_grid_probe.py:111-170 | In every run each recorded point is the total input plus what all exits earned, less one principal per exit below, plus the close times what those exits bought at their centres |
| `GridWorth.RunBooks` | scripts/dgt_dynamic_grid_probe.py:105-167 | In every run input, wallet, inventory and fees are functions of the exits alone; the input is one principal plus the most that was ever missing |
| `GridWorth.MostMissingIsLeast` | scripts/dgt_dynamic_grid_probe.py:114-122 | That is what was missing after some exits and no less than after any, so no smaller input carries the run |
| `GridWorth.EquityIsWorth` | scripts/dgt_dynamic_grid_probe.py:111-112 | The equity of any grid with balanced books, at any price |
| `GridLegs.RunFollowsRule` | scripts/dgt_dynamic_grid_probe.py:139-167 | In every run each bar goes from the close before it to its low, its high and its close, and each leg either stays inside the outermost lines and counts the lines it touches, or ends on or beyond them and leaves the grid, above or below, for one around the price |
| `GridLegs.RunTracks` | scripts/dgt_dynamic_grid_probe.py:139-169 | After every bar of every run the close is strictly inside the grid and next to the line last touched, and the count of crossed lines has the parity of its distance from the centre |
| `GridLegs.SegmentIsLeg` | scripts/dgt_dynamic_grid_probe.py:143-167 | One leg of that rule |
| `GridLegs.WalkTouches` | scripts/dgt_dynamic_grid_probe.py:144-151 | The walk ends at the last line on the way, the end itself counting downwards only |
| `GridLegs.LevelAt` | scripts/dgt_dynamic_grid_probe.py:65-78 | Line i lies i - half spacings from the centre |
| `GridLegs.TwoExits` | scripts/dgt_dynamic_grid_probe.py:81-188 | One bar from 100 to 90 and back leaves both ways and is worth 205 on an input of 200 |
| `GridCompact.CompactKeeps` | scripts/dgt_dynamic_grid_probe.py:31-62 | For points in time order the compacted list is, in order, exactly the points that are the first or last of their day or the first to reach its highest or lowest equity; up to three points stay as they are |
| `GridCompact.FlushKeeps` | scripts/dgt_dynamic_grid_probe.py:38-52 | The same of one day |
| `GridCompact.StreamShowsBars` | scripts/dgt_dynamic_grid_probe.py:139-188 | For bars in time order each point of a simulated stream is what the run was worth at the close of a bar, and these are the kept bars |
| `GridCompact.DayHolds` | scripts/dgt_dynamic_grid_probe.py:55-59 | Days are spans of 24 hours |
| `GridScaling.ScaledCacheAgrees` | scripts/dgt_dynamic_grid_probe.py:81-213 | Scaling a cached run to another principal equals simulating there, points, inputs, fees, resets and errors included |
| `GridScaling.UnitCacheAgrees` | scripts/dgt_dynamic_grid_probe.py:435-444 | The search's use of it: one run at principal 1 serves every principal |
| `GridScaling.SegmentScales` | scripts/dgt_dynamic_grid_probe.py:140-167 | Walking, both exits, funding and reset commute with scaling |
| `GridScaling.PlayScales` | scripts/dgt_dynamic_grid_probe.py:136-171 | So does the whole loop over bars, including where it fails |
| `GridScaling.CompactScales` | scripts/dgt_dynamic_grid_probe.py:31-62 | Day-wise compaction commutes with scaling |
| `GridRun.RunSymbol` | scripts/dgt_dynamic_grid_probe.py:81-188 | The simulation with its mutable cursor, wallet and totals computes the specification, with its errors |
| `GridRun.PlayBars` | scripts/dgt_dynamic_grid_probe.py:136-171 | The loop over bars, stopping where a grid cannot be rebuilt |
| `GridRun.Simulation.RunSegment` | scripts/dgt_dynamic_grid_probe.py:140-167 | One segment: the two walks over grid lines and the two exits |
| `GridRun.CompactLoop` | scripts/dgt_dynamic_grid_probe.py:31-62 | The day buffer with its nested flush computes the specification of compaction |
| `GridCombine.FastAgreesIffIncreasing` | scripts/dgt_dynamic_grid_probe.py:333-362 | The fast path for common timestamps equals the general cursor merge if and only if the timestamps strictly increase |
| `GridCombine.CombineStreams` | scripts/dgt_dynamic_grid_probe.py:333-362 | Which path is taken, with its result or error |
| `GridCombine.MergeStreams` | scripts/dgt_dynamic_grid_probe.py:345-361 | The cursors, advanced from where they stood, give at each time the sum of what each stream shows there |
| `GridCombine.TotalSplits` | scripts/dgt_dynamic_grid_probe.py:345-361 | Two lists of streams together show the sum of what each shows |
| `GridCombine.TotalOfOne` | scripts/dgt_dynamic_grid_probe.py:345-361 | One stream in time order shows its latest point, and before it starts its first |
| `GridCombine.NoTimestampsMeansShared` | scripts/dgt_dynamic_grid_probe.py:336-347 | Streams without any timestamp take the fast path, so the error for them is unreachable |
| `Candles.Aggregator.CompleteBars` | apps/trading-engine/src/martingale_candle.rs:69-106 | The loop over ticks with its bucket map computes the fold |
| `Candles.FoldSplits` | apps/trading-engine/src/martingale_candle.rs:69-106 | Processing two lists one after the other is processing their concatenation |
| `Candles.CallsAreOneFold` | apps/trading-engine/src/martingale_candle.rs:69-106 | Any split of the ticks into calls emits the same bars and leaves the same buckets |
| `Candles.NoInterference` | apps/trading-engine/src/martingale_candle.rs:75-104 | Ticks of other symbols and unaccepted ticks leave a symbol's bars and bucket alone |
| `Candles.FoldGroups` | apps/trading-engine/src/martingale_candle.rs:69-106 | For every tick list and symbol the bars and the open bucket are one per quoted slot, strictly increasing, with first, highest, lowest and last price of the accepted non-late ticks |
| `Candles.EmittedBarsAreGrouped` | apps/trading-engine/src/martingale_candle.rs:69-106 | The emitted bars over any split are exactly those groups without the last, at aligned open times |
| `Candles.LastTickCounts` | apps/trading-engine/src/martingale_candle.rs:75-104 | A usable tick counts with its price for the slot that holds it, unless a usable tick before it came at or after the end of that slot |
| `Candles.LateIff` | apps/trading-engine/src/martingale_candle.rs:75-104 | When a slot is over, told by the ticks alone |
| `Candles.SlotOfHolds` | apps/trading-engine/src/martingale_candle.rs:75-104 | A slot is the aligned span that holds the time |
| `GridBuilder.OrdinaryFixedStep` | apps/trading-engine/src/grid_builder.rs:104-140 | Accepts exactly when inputs are valid and the rounded levels are positive and strictly monotonic, and returns those levels |
| `GridBuilder.OrdinaryMonotoneIff` | apps/trading-engine/src/grid_builder.rs:104-140 | Whether rounding makes two levels collide, decided from anchor, step and count before any level is built, for every count |
| `GridBuilder.OrdinaryAccuracy` | apps/trading-engine/src/grid_builder.rs:104-140 | Level i lies within half a unit of i steps from the anchor, above it for a short grid and below it otherwise |
| `GridBuilder.FixedSideAccuracy` | apps/trading-engine/src/grid_builder.rs:142-172 | Level i of a side lies within half a unit of i + 1 steps from the centre |
| `GridBuilder.StepIsNear` | apps/trading-engine/src/grid_builder.rs:104-140 | The step is the spacing of the price, within half a unit |
| `GridBuilder.ClassicBilateralFixed` | apps/trading-engine/src/grid_builder.rs:142-172 | Acceptance and levels of the fixed bilateral plan |
| `GridBuilder.ClassicBilateralGeometric` | apps/trading-engine/src/grid_builder.rs:174-212 | Acceptance and levels of the geometric bilateral plan, rounded at every step |
| `GridBuilder.GeometricAccuracy` | apps/trading-engine/src/grid_builder.rs:174-212 | Level n, on either side, differs from the exact geometric level by at most half a unit times (ratio^n - 1)/(ratio - 1) |
| `GridBuilder.SideAccuracy` | apps/trading-engine/src/grid_builder.rs:174-212 | For spacing s: half a unit times ((1+s)^n - 1)/s above and (1 - (1-s)^n)/s below |
| `GridBuilder.GeometricBrackets` | apps/trading-engine/src/grid_builder.rs:285-310 | With at least two levels per side an accepted geometric plan lies strictly on both sides of the centre |
| `GridBuilder.FixedBrackets` | apps/trading-engine/src/grid_builder.rs:285-310 | The same for the fixed plan |
| `GridBuilder.SingleFixedLevel` | apps/trading-engine/src/grid_builder.rs:142-172 | With one level per side the fixed plan is accepted if and only if the centre less the rounded step exceeds half a unit, and brackets the centre if and only if the spacing does; so it is accepted without bracketing exactly for a spacing of at most half a unit under a larger centre |
| `GridBuilder.SingleGeometricAccepted` | apps/trading-engine/src/grid_builder.rs:174-212 | With one level per side the geometric plan is accepted if and only if the ratio is positive and the lower level exceeds half a unit |
| `GridBuilder.SingleGeometricBrackets` | apps/trading-engine/src/grid_builder.rs:174-212 | It brackets the centre if and only if the spacing, in units, carries both levels past the whole units next to the centre |
| `GridBuilder.WholeCentreClears` | apps/trading-engine/src/grid_builder.rs:304-310 | For a centre of whole units: a spacing of more than half a unit, or exactly half on an odd centre |
| `GridBuilder.FixedLevelOnCentre` | apps/trading-engine/src/grid_builder.rs:142-172 | An input the fixed builder accepts whose lower level is the centre |
| `GridBuilder.GeometricLevelsOnCentre` | apps/trading-engine/src/grid_builder.rs:174-212 | An input the geometric builder accepts whose levels are both the centre |
| `Indicators.ComputeSma` | apps/backtest-engine/src/indicators.rs:16-30 | Averages of the last `period` finite inputs |
| `Indicators.SmaCausal` | apps/backtest-engine/src/indicators.rs:16-30 | The output on a prefix is the prefix of the output, early return included |
| `Indicators.ComputeEma` | apps/backtest-engine/src/indicators.rs:32-57 | The loop computes the running average of each history, restarted by a non-finite input |
| `Indicators.EmaCausal` | apps/backtest-engine/src/indicators.rs:32-57 | Causality, early return included |
| `Indicators.EmaReady` | apps/backtest-engine/src/indicators.rs:32-57 | A value exists if and only if the last `period` inputs are finite |
| `Indicators.EmaBetween` | apps/backtest-engine/src/indicators.rs:41-54 | The average stays between any bounds of the inputs |
| `Indicators.ComputeAtr` | apps/backtest-engine/src/indicators.rs:59-98 | The loop computes warm-up and Wilder smoothing of each history, restarted by an invalid candle |
| `Indicators.AtrCausal` | apps/backtest-engine/src/indicators.rs:59-98 | Causality, early return included |
| `Indicators.AtrReady` | apps/backtest-engine/src/indicators.rs:59-98 | A value exists if and only if the last `period` candles are valid |
| `Indicators.ComputeRsi` | apps/backtest-engine/src/indicators.rs:100-143 | The loop computes seed and Wilder smoothing of gains and losses of each history |
| `Indicators.RsiCausal` | apps/backtest-engine/src/indicators.rs:100-143 | Causality, early return included |
| `Indicators.RsiReady` | apps/backtest-engine/src/indicators.rs:100-143 | A value exists if and only if the last period + 1 closes are finite |
| `Indicators.RsiBounded` | apps/backtest-engine/src/indicators.rs:370-380 | Every RSI lies between 0 and 100 |
| `Indicators.RsiOfMirror` | apps/backtest-engine/src/indicators.rs:100-143 | Turning the closes upside down turns every RSI r into 100 - r |
| `Indicators.RsiOfRise` | apps/backtest-engine/src/indicators.rs:100-143 | Closes that only rise have RSI 100 wherever it is defined |
| `Indicators.ComputeBollinger` | apps/backtest-engine/src/indicators.rs:145-186 | Each band is the band of the history up to its own close |
| `Indicators.BandMeaning` | apps/backtest-engine/src/indicators.rs:150-183 | A band exists if and only if the window is finite with a non-zero average; it is centred on the average, its half width squared is stddev squared times the variance, and the bandwidth is relative to the middle, for any function that is a square root |
| `IndicatorLaws.SmaSlides` | apps/backtest-engine/src/indicators.rs:16-30 | From one value to the next the average gains the new input and loses the one `period` before it |
| `IndicatorLaws.SmaOfSame` | apps/backtest-engine/src/indicators.rs:16-30 | The average of equal inputs is that input |
| `IndicatorLaws.EmaStarts` | apps/backtest-engine/src/indicators.rs:41-54 | The first value is the simple average |
| `IndicatorLaws.EmaMoves` | apps/backtest-engine/src/indicators.rs:41-54 | Every later one moves 2 / (period + 1) of the way to its input |
| `IndicatorLaws.TrueRangeIsSpan` | apps/backtest-engine/src/indicators.rs:300-316 | The true range is how far the candle and the close before it reach together |
| `IndicatorLaws.AtrIsAverage` | apps/backtest-engine/src/indicators.rs:59-98 | Every ATR is Wilder's average of those spans since the last invalid candle |
| `IndicatorLaws.FirstStrength` | apps/backtest-engine/src/indicators.rs:349-368 | The first average gain and loss differ by the change over the window and add up to the distance travelled, per step |
| `IndicatorLaws.StrengthMoves` | apps/backtest-engine/src/indicators.rs:100-143 | Every later close moves both 1 / period of the way to what it gained and lost |
| `IndicatorLaws.RsiIsShare` | apps/backtest-engine/src/indicators.rs:370-380 | The index is the share of the gains in all that moved, in percent, and 50 when nothing did |
| `IndicatorLaws.VarianceIs` | apps/backtest-engine/src/indicators.rs:150-183 | The variance behind a band is the mean of the squares less the square of the mean |
| `Adx.AdxState.Advance` | apps/backtest-engine/src/indicators.rs:203-275 | The incremental step with its resets and early returns computes the specified next state and answer |
| `Adx.ComputeAdx` | apps/backtest-engine/src/indicators.rs:188-198 | The batch loop over the mutable state |
| `Adx.TotalIsAverage` | apps/backtest-engine/src/indicators.rs:382-399 | What is kept of a quantity is `period` times Wilder's average of the values fed to it, and nothing before there are `period` of them |
| `Adx.BatchIsIncremental` | apps/backtest-engine/src/indicators.rs:200-203 | The incremental interface agrees with the batch function candle by candle |
| `Adx.BatchCausal` | apps/backtest-engine/src/indicators.rs:188-198 | Causality, early return included |
| `Adx.QuietWhileWarmingUp` | apps/backtest-engine/src/indicators.rs:203-275 | After any reset nothing is emitted before 2 * period valid candles in a row |
| `Adx.EmitsIffLive` | apps/backtest-engine/src/indicators.rs:203-275 | For every history a value is emitted if and only if each of the last `period` candles left a positive smoothed range |
| `Adx.EmitsExactlyWhenWarm` | apps/backtest-engine/src/indicators.rs:203-275 | When no valid candle is flat that is from the 2 * period-th valid candle in a row on |
| `Adx.AnswerBounded` | apps/backtest-engine/src/indicators.rs:232-274 | Every emitted value lies between 0 and 100 |
| `AdxDirection.AnswerIsAverage` | apps/backtest-engine/src/indicators.rs:203-275 | Every emitted value is Wilder's average of how one-sided the averaged moves were, over the candles in a row that left a positive range; the ranges cancel |
| `AdxDirection.StateIsFed` | apps/backtest-engine/src/indicators.rs:203-275 | The three kept totals are those of the true ranges and of the upward and downward moves since the last invalid candle |
| `AdxDirection.RangeCancels` | apps/backtest-engine/src/indicators.rs:232-274 | Two shares of one range differ, relative to their sum, as the moves do |
| `AdxDirection.FallIsHundred` | apps/backtest-engine/src/indicators.rs:318-341 | When every candle moves down, by more than it moves up, every emitted value is 100 |
| `AdxDirection.RiseIsHundred` | apps/backtest-engine/src/indicators.rs:318-341 | So it is when every candle moves up by more than it moves down |
| `AdxDirection.InsideIsZero` | apps/backtest-engine/src/indicators.rs:318-341 | When every candle stays within the one before it every emitted value is 0 |
| `AdxDirection.AnswerOfTurned` | apps/backtest-engine/src/indicators.rs:318-341 | Turning every candle of any history upside down changes no answer |
| `AdxDirection.WiderFallIsFall` | apps/backtest-engine/src/indicators.rs:329-338 | A candle that reaches 1 up and 3 down is a fall: the index is 100 |
| `Streams.ResampleEquityCurve` | scripts/hybrid_martingale_frontier_probe.py:157-172 | The one-pass forward fill over sorted points shows, at each time, the latest point of the unsorted input at or before it |
| `Streams.LatestMeaning` | scripts/hybrid_martingale_frontier_probe.py:157-172 | What is shown is a point not after the time and not before any other such point; nothing exactly when there is none |
| `Streams.LatestOfSorted` | scripts/hybrid_martingale_frontier_probe.py:159-162 | The stable sort does not change what is shown |
| `Streams.LatestCausal` | scripts/hybrid_martingale_frontier_probe.py:158-172 | Lists with the same points up to t show the same at every time up to t |
| `Streams.CombineStreams` | scripts/hybrid_martingale_frontier_probe.py:421-439 | At every time of any stream from which on all have started, the sum of what they show |
| `Streams.SumSplits` | scripts/hybrid_martingale_frontier_probe.py:421-439 | Two lists of streams together show the sum of what each shows, where both show something |
| `Streams.SumOfOne` | scripts/hybrid_martingale_frontier_probe.py:421-439 | One stream shows its latest point |
| `Streams.CombinedCausal` | scripts/hybrid_martingale_frontier_probe.py:421-439 | The combined points up to t depend only on the streams' points up to t |
| `DailyBuilders.EmaValues` | scripts/hybrid_martingale_frontier_probe.py:225-237 | Entry i is the running average of the closes up to i, or nothing before the period; an error exactly for a period that is not positive |
| `DailyBuilders.BuildTrendStream` | scripts/hybrid_martingale_frontier_probe.py:240-270 | The loop over precomputed averages trades each day on the averages of the days before; the stand-in for an empty stream adds nothing |
| `DailyBuilders.BuildMomentumStream` | scripts/hybrid_martingale_frontier_probe.py:286-318 | The loop for every lookback, with Python's negative list positions and index errors, computes the specified stream |
| `DailyBuilders.MomentumFailsIff` | scripts/hybrid_martingale_frontier_probe.py:299-302 | It fails if and only if the lookback is below -1 |
| `DailyBuilders.MomentumCausalIff` | scripts/hybrid_martingale_frontier_probe.py:299-318 | What it says about the first n days depends on nothing later, if and only if the lookback is not -1 |
| `DailyBuilders.BuildDonchianStream` | scripts/hybrid_martingale_frontier_probe.py:328-359 | The loop for every lookback, with Python's slices and the error of an empty channel, computes the specified stream |
| `DailyBuilders.DonchianFailsIff` | scripts/hybrid_martingale_frontier_probe.py:341-344 | It fails if and only if the lookback is not positive and a day is reached |
| `DailyBuilders.DonchianCausal` | scripts/hybrid_martingale_frontier_probe.py:341-359 | What it says about the first n days depends on nothing later, for every lookback |
| `DailyBuilders.StreamIsPoints` | scripts/hybrid_martingale_frontier_probe.py:299-359 | With a lookback that makes sense both builders give one point per day, each traded on the days before it |
| `DailyStreams.NoLookahead` | scripts/hybrid_martingale_frontier_probe.py:299-359 | Histories that agree on the first n days give the same points on those days, for all three strategies |
| `DailyStreams.PositionChosenBefore` | scripts/hybrid_martingale_frontier_probe.py:299-359 | The output on a day is a position and an equity that histories agreeing before it share, put to the closes of that day and the one before |
| `DailyStreams.RiseIsBuyAndHold` | scripts/hybrid_martingale_frontier_probe.py:240-359 | In a market that only rises every strategy buys once and then earns exactly the market's growth less one fee |
| `DailyStreams.FallIsNoTrade` | scripts/hybrid_martingale_frontier_probe.py:240-359 | In a market that only falls a strategy that does not short never trades |
| `DailyLaws.DayFollowsRule` | scripts/hybrid_martingale_frontier_probe.py:240-359 | Every day of every stream, in any market: the position is the one its rule gives for the days before, a change of it costs one fee, and then long, flat or short it earns its share of the change of the close |
| `DailyLaws.DesiredFollowsRule` | scripts/hybrid_martingale_frontier_probe.py:255-348 | The position wanted is that of the rule: the averages compared, the sign of the momentum, or the channel that is broken |
| `DailyLaws.HeldEarns` | scripts/hybrid_martingale_frontier_probe.py:240-359 | A held position earns, loses or keeps the relative change of the close |
| `DailyLaws.FeeCharges` | scripts/hybrid_martingale_frontier_probe.py:240-359 | A change costs the fee, in hundredths of a percent of the equity |
| `DailyLaws.TrendAverageMoves` | scripts/hybrid_martingale_frontier_probe.py:225-237 | The average starts at the first close and moves 2 / (period + 1) of the way to each later one |
| `DailyLaws.FallIsSellAndHold` | scripts/hybrid_martingale_frontier_probe.py:286-359 | In a market that only falls a strategy that may short sells once and then earns exactly the gains of the short position less one fee |

## Left out

- HTTP, RPC, Telegram, environment parsing, health payloads, notification texts and logs: plumbing; a failing notification is modelled as a failing store call.
- EVM and Solana polling coverage: the block cursor is written before logs are fetched, so no coverage claim is made.
- `promote_due_orders` and address allocation for orders: modelled only as arbitrary reassignment steps in the deposit runs.
- The decisions of the API server's matching endpoint and of administrators: their writes are steps of the deposit runs, with guards no stricter than the code's and each taken at one instant.
- The in-memory store backend: the model follows the PostgreSQL repositories.
- `process_sweep_submission_once` and `process_sweep_confirmation_once` as single loops: they are cut into steps of a state machine because their interleaving is the point, so the two functions do not appear as methods.
- Hexadecimal and decimal parsing of big integers around `biguint_to_decimal_string`.
- Overflow of 64-bit times; the 28-digit limit of `Decimal`; the table of Unicode upper-case letters, which is a parameter.
- IEEE rounding and overflow to non-finite intermediate results in curves, indicators, grids and streams: all arithmetic on finite inputs is exact.
- EquityCurves.CombineEquityCurves: the sign of a zero is not kept, so dividing by a planned margin of minus zero has the sign of dividing by zero.
- Deposits.PaymentEffect: the queue row deleted and the address allocation released in the same transaction (`crates/shared-db/src/postgres/billing.rs` lines 639 to 655) are not part of the ledger modelled here.
- SavedWeights.WeightDecimals: `Decimal(str(weight * 100.0))` is the exact number, without the rounding of the float and its shortest text.
- Indicators.ComputeBollinger: takes the square root as a parameter; what a band means is stated for every function that is one.
- Candidate loading, row reduction, alignment and the solver behind `solve_weight_program` (an oracle here) and annualised returns.
- `sample_curve`, portfolio scoring, correlation, pruning, allocation tables and `powf` annualisation: finite tables or transcendental arithmetic.
- Names, labels, symbol lists and capital figures attached to streams; loading closes and bars from databases; the funding stream.
- `custom` grid plans and the constructors of plans in `grid_builder.rs`: they only validate or copy.
- Sampling in `search.rs` and `intelligent_search.rs`, `martingale_budget.rs`, `execution_effects.rs`, the configuration crates, the audit and report scripts and the web application.
