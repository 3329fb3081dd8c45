# A verified model of the straddle trading platform

The platform trades option straddles. Its feed decoder turns exchange packets into option chains and
publishes the at-the-money row. Its execution gateway cuts a straddle into chunks of orders, drives
them through a broker, keeps a table of orders, recomputes trade statuses from it and squares trades
off. A trade worker does the same for one trade with a state machine that places, chases and
completes orders.

The project models these three cores and proves what holds over whole runs:

- **Trade worker** (`IntentBuilder`, `TradeWorker`, `RunProperties`, `ChaseBuffers`, `DeployedOrders`,
  `TradeStateMachine`): every interleaving of loop iterations and order updates keeps one invariant,
  and reaching ACTIVE means that exactly the planned orders were filled, in exactly the allocated
  quantities; every order sells the option of the quote it was deployed with; the price buffers of
  chased orders are known exactly.
- **Execution gateway** (`OrderChunker`, `ChunkerProperties`, `OrderTable`, `BuildExecutor`,
  `BuildProperties`, `BuildPrices`, `Deployment`, `Lifecycle`, `Greeksoft`, `Netting`, `ExecutionSummary`,
  `ShortIds`, `SquareOff`, `SecondSquareOff`, `ElevenLegs`, `DeploymentCycle`): against an arbitrary broker, a build that
  succeeds fills every order exactly once, at limit prices that follow from how often the order was
  submitted; the status recomputed from the table agrees with the one
  the build wrote under exact conditions; a deployment that is squared off ends flat, under exact
  conditions too.
- **Feed decoder** (`BseFeed`, `BseParser`, `Strikes`, `OptionChains`, `ChainBuilder`,
  `AtmPublisher`): decoding inverts encoding for whole packets; the token index agrees with a scan
  over every history of ticks; every published chain has exactly one at-the-money row, and
  its strike follows the published underlying.

`Text`, `Sequences`, `Rounding` and `Wrappers` hold decimal rendering, sequence and multiset facts,
rounding, and the optional value.

Code that updates state is a class or a method with loops, proved equal to a function on values;
the theorems are about those functions. What comes from outside is a parameter that may be anything:
the broker's answers (indexed by submission), gateway updates, elapsed time, time stamps, market
data, the order in which hash maps are iterated.

`dafny verify dfyconfig.toml` checks the whole project.

## Findings

Where a promised agreement fails, the code is modelled as it is, a lemma gives an input, and another
says exactly when the agreement holds.

- The price buffer of an unfilled order is widened at every chase without a limit and cast to a 32-bit
  integer. The cast is undefined from the twenty-first chase on, about a minute after the order was
  sent (`TwentyFirstChaseFalls`, `FitsExactly`, `NextChaseSafeExactly`).
- A square-off of a trade that is still squaring off is accepted and orders again in full whatever has
  not been reported filled, open orders included (`RepeatedExactly`, `TwoCallsCloseOnce`). In the same
  second it even reuses the identifiers, and the table shows the orders only once
  (`SameSecondIds`, `SameSecondHidesOrders`).
- A build treats the spelling "CANCELED" as an open order, the status refresh as a final failure
  (`OneLCancellationDisagrees`, `StatusesAgreeExactly`). The Greeksoft executor normalises the
  spelling only when the order book confirms the order (`OpenReadsPending`).
- The Greeksoft executor can answer FILLED with a filled quantity of zero, when the order book shows a
  final status without a traded quantity or the placement status is taken over unconfirmed. The
  build then succeeds, but the refresh does not count the row as filled (`EmptyFillDisagrees`,
  `FilledIsFull`).
- A build that gives up on one leg writes FAILED although another leg may be filled
  (`FailedBuildCanHoldPosition`, `FailedRefreshesFailed`).
- The square-off trims the side of a row, the plan and the summary do not
  (`UntrimmedSideDisagrees`, `NettingsAgree`).
- The running average price of the summary differs from the volume-weighted price of the plan once
  fills have been offset (`OffsetAverageDisagrees`, `AveragesAgreeThroughout`,
  `AveragesAgreeAtAnyPrices`).
- Short order identifiers are cut to twenty characters, so from the eleventh leg of one square-off
  on they can repeat. The later order then has no row, and its position stays open in a trade that is
  marked CLOSED (`EleventhPositionStaysOpen`, `ClosingIdsDistinctExactly`, `ClosedFlatExactly`).
- Rounding to the strike step before snapping can miss the nearest strike
  (`SnapMissesNearest`, `SnapNearestExactly`).
- The status refresh takes every row whose identifier begins with BUI for a build order, so closing
  orders of a symbol whose code is BUI count as build orders
  (`ClosingRowCounted`, `RefreshIgnoresSquareOff`).

## Model

| member | source | states |
|---|---|---|
| `RunProperties.ActiveMeansExactlyFilled` | services/trade-worker/src/state_machine.cpp:72-111 | In every run that is ACTIVE, the accepted FILLED/COMPLETE updates are exactly the planned orders, each once, and the filled CE and PE quantities equal the `ce_quantity` and `pe_quantity` of the allocation made at deploy |
| `RunProperties.RunInvariant` | services/trade-worker/src/state_machine.cpp:18-195 | Every machine of every run satisfies the invariant: BUILDING/CHASING exactly when something is pending, pending is part of the current chunk and is what was last sent, ACTIVE means the index is past the last chunk, fills plus pending are the chunks begun so far, every message carries the right id, every order is sent once per chase with its buffer widened once more while that fits 32 bits, the plan carries the allocated quantities |
| `RunProperties.StepKeepsInvariant` | services/trade-worker/src/worker_loop.cpp:99-151 | One loop iteration (tick, or deploy only from INIT) or one order update keeps that invariant, for any clock, market data, update and hash-table order |
| `RunProperties.ChaseDiscipline` | services/trade-worker/src/state_machine.cpp:138-186 | In every run, each message to the gateway carries the latest exchange id reported for its intent and is a modify exactly when there is one; the first message of an intent is a new order |
| `ChaseBuffers.BuffersAreExact` | services/trade-worker/src/state_machine.cpp:160-173 | In every run an order is sent at every chase from its first message on, and each message carries exactly the initial two ticks widened for those chases if and only if that value fits 32 bits |
| `ChaseBuffers.BuffersGrow` | services/trade-worker/src/state_machine.cpp:160-173 | While that value fits, the ticks of an order never fall and strictly grow from the third chase on |
| `ChaseBuffers.TwentyChasesGrow` | services/trade-worker/src/state_machine.cpp:160-173 | In every run this holds of all messages of the first twenty chases, whenever their orders were first sent |
| `ChaseBuffers.FitsExactly` | services/trade-worker/src/state_machine.cpp:160-173 | The buffer of an order sent before the first chase fits 32 bits if and only if there were at most twenty chases |
| `ChaseBuffers.BufferLater` | services/trade-worker/src/state_machine.cpp:160-173 | An order first sent later never has the larger buffer |
| `ChaseBuffers.NextChaseSafeExactly` | services/trade-worker/src/state_machine.cpp:170-173 | For a pending order of any run whose buffer fits, the next chase cannot lower it, whatever an undefined cast yields, if and only if the next buffer fits too |
| `ChaseBuffers.TwentyFirstChaseFalls` | services/trade-worker/src/state_machine.cpp:160-186 | A run of one deploy and twenty-one chases in which every pending order is sent with 1377064005 ticks and then with the lowest 32-bit integer |
| `DeployedOrders.OrdersFollowQuote` | services/trade-worker/src/state_machine.cpp:18-69 | In every run the trade is in INIT exactly until the first poll with a token and a positive price for both options; from then on every order planned, pending or sent to the gateway sells, the calls with that poll's call token and call price, the puts with its put token and put price |
| `DeployedOrders.PlanSellsLegs` | services/trade-worker/src/state_machine.cpp:43-52 | Every order of a deployed plan sells the quote's own token at its own price, call for call and put for put |
| `DeployedOrders.PlanOfLegs` | services/trade-worker/src/intent_builder.cpp:121-153 | For any legs, every planned order carries the side of the call and the token and price of its own leg |
| `DeployedOrders.UpdatesRead` | services/trade-worker/src/state_machine.cpp:84-111 | For a pending order REJECTED and CANCELED close the trade and clear what is pending, FILLED and COMPLETE take the order out or move on to the next chunk, and any other status leaves state, pending orders and chunk alone |
| `DeployedOrders.UnknownUpdatesIgnored` | services/trade-worker/src/state_machine.cpp:76-81 | An update for an order that is not pending changes nothing |
| `DeployedOrders.TimeoutsChase` | services/trade-worker/src/state_machine.cpp:114-129 | A poll of a deployed machine chases exactly when it is open and timed out; then it counts one more attempt and sends one message per pending order |
| `RunProperties.FillsWithinOneChunk` | services/trade-worker/src/state_machine.cpp:91-111 | At every moment of every run, also after a rejection closed the trade, all orders of the finished chunks are filled once and nothing beyond the chunk begun last |
| `RunProperties.LegsWithinOneChunk` | services/trade-worker/src/state_machine.cpp:188-195 | So each leg holds at least its quantity of the finished chunks and at most that of the chunks begun |
| `RunProperties.FillsStayWithinPlan` | services/trade-worker/src/state_machine.cpp:91-111 | However a run ends, no order outside the plan and no order twice is filled |
| `RunProperties.FinishedForever` | services/trade-worker/src/state_machine.cpp:114-118 | Once ACTIVE or CLOSED, a machine is the same at every later moment of the run |
| `RunProperties.FinishedIsAbsorbing` | services/trade-worker/src/state_machine.cpp:76-81 | No step of any kind changes an ACTIVE or CLOSED machine |
| `RunProperties.FillMakesProgress` | services/trade-worker/src/state_machine.cpp:91-106 | An accepted fill lowers (chunks left, number pending) lexicographically and leaves the plan alone |
| `RunProperties.IndexNeverDecreases` | services/trade-worker/src/state_machine.cpp:55-56 | Along any run the chunk index never goes back |
| `RunProperties.StepMovesForward` | services/trade-worker/src/state_machine.cpp:91-106 | No single step moves the chunk index back |
| `TradeWorker.WidenGrows` | services/trade-worker/src/state_machine.cpp:164-173 | Before the cast, multiplying a buffer of at least two ticks by 1 + 0.2 * attempts and truncating never shrinks it, and enlarges it from the third attempt on |
| `StateMachine.TradeStateMachine.constructor` | services/trade-worker/src/state_machine.cpp:7-15 | A new object shows the initial machine |
| `StateMachine.TradeStateMachine.ExecuteCurrentChunk` | services/trade-worker/src/state_machine.cpp:138-157 | The loop over the chunk brings the object to the state the specification step gives: all its intents pending and announced as new orders, in order |
| `StateMachine.TradeStateMachine.OnCommandDeploy` | services/trade-worker/src/state_machine.cpp:18-69 | Brings the object to the specified state after a deploy, including CLOSED for an empty plan |
| `StateMachine.TradeStateMachine.OnOrderUpdate` | services/trade-worker/src/state_machine.cpp:72-111 | Brings the object to the specified state for every status, known or unknown intent |
| `StateMachine.TradeStateMachine.ChaseIntent` | services/trade-worker/src/state_machine.cpp:170-182 | Widens one pending intent, casts its buffer to 32 bits with any result out of range, and re-sends it, as specified |
| `StateMachine.TradeStateMachine.ChasePending` | services/trade-worker/src/state_machine.cpp:170-182 | The loop over the hash table visits every pending intent once, in some order, and has the specified effect for that order |
| `StateMachine.TradeStateMachine.EscalateAndChase` | services/trade-worker/src/state_machine.cpp:160-186 | Enters CHASING with one more attempt and chases everything pending |
| `StateMachine.TradeStateMachine.OnTimerTick` | services/trade-worker/src/state_machine.cpp:114-129 | Chases only in BUILDING/CHASING, on timeout, with something pending |
| `StateMachine.TradeStateMachine.PollOnce` | services/trade-worker/src/worker_loop.cpp:107-150 | One loop iteration is one step of a run, so the run theorems hold of the object |
| `IntentBuilder.DeltaNeutralBounds` | services/trade-worker/src/intent_builder.cpp:14-85 | For deltas of opposite sign and a positive target: at least one lot a leg, 2L or 2L+1 lots in all, quantities of lots times lot size, the net delta of selling them, and that net delta at most lot_size*(abs(ce)+abs(pe))/2, or lot_size*max(abs(ce),abs(pe)) when the one-lot minimum applies |
| `IntentBuilder.FlatAllocations` | services/trade-worker/src/intent_builder.cpp:21-47 | Without deltas both legs get the target lots and their quantity; without a target or a lot size they get nothing |
| `IntentBuilder.PlanIsExact` | services/trade-worker/src/intent_builder.cpp:88-166 | The CE and PE quantities of the whole plan are exactly lots times lot size of each leg |
| `IntentBuilder.PlanIsWellFormed` | services/trade-worker/src/intent_builder.cpp:117-163 | No empty chunk, pairwise distinct identifiers, buffers of two ticks, every order positive and within the broker limit or one lot |
| `IntentBuilder.ChunkSplitIsExact` | services/trade-worker/src/intent_builder.cpp:103-119 | The split of lots over the chunks (C division and remainder) loses no lot; negative lots yield nothing |
| `IntentBuilder.PlanShape` | services/trade-worker/src/intent_builder.cpp:98-166 | A plan has min(chunk divisor, lots of the larger leg) chunks, none if there are no lots, and each carries exactly the even share of both legs, the first chunks one lot more, calls before puts |
| `IntentBuilder.MaxLotsPerOrder` | services/trade-worker/src/intent_builder.cpp:98-101 | At least one lot, within the broker limit unless it is one lot, and one lot more would exceed the limit |
| `IntentBuilder.SlicesAreFull` | services/trade-worker/src/intent_builder.cpp:121-136 | Every order of a leg in a chunk but the last has the largest size that fits |
| `IntentBuilder.SliceQuantity` | services/trade-worker/src/intent_builder.cpp:121-136 | The slices of a leg in a chunk add up to its lots and carry only its option type |
| `IntentBuilder.SliceLeg` | services/trade-worker/src/intent_builder.cpp:121-136 | The slicing loop computes the specified orders and order counter |
| `IntentBuilder.FillChunks` | services/trade-worker/src/intent_builder.cpp:117-154 | The chunk loop computes the specified chunks, the counter running on |
| `IntentBuilder.KeepNonEmpty` | services/trade-worker/src/intent_builder.cpp:156-165 | The final loop keeps exactly the non-empty chunks, in order |
| `IntentBuilder.GenerateChunkedOrders` | services/trade-worker/src/intent_builder.cpp:88-166 | The whole method computes the plan about which the lemmas speak |
| `OrderChunker.GenerateChunkedOrders` | services/execution-gateway/internal/trading/chunker.go:46-190 | Returns the plan, or the error for the first thing found wrong, for any arguments |
| `OrderChunker.LotsPerOrder` | services/execution-gateway/internal/trading/chunker.go:66-78 | The lots asked for, or a hundredth of the base lots rounded up, or one; less only where one lot more would exceed the broker limit, and never above the limit unless it is a single lot |
| `OrderChunker.SliceWave` | services/execution-gateway/internal/trading/chunker.go:118-159 | The full-order and remainder loops give the specified slices with consecutive identifiers |
| `OrderChunker.CutLeg` | services/execution-gateway/internal/trading/chunker.go:96-160 | The wave loop of a leg gives its seven waves and the next order number |
| `OrderChunker.CutLegs` | services/execution-gateway/internal/trading/chunker.go:85-163 | The leg loop gives all waves, or the first invalid leg |
| `OrderChunker.InterleaveLists` | services/execution-gateway/internal/trading/chunker.go:167-182 | The round-robin loops compute the interleaving of the lists |
| `OrderChunker.MergeWaves` | services/execution-gateway/internal/trading/chunker.go:165-187 | The final loop interleaves each wave and keeps the non-empty ones |
| `ChunkerProperties.PlanConserves` | services/execution-gateway/internal/trading/chunker.go:85-187 | For any selection of token, symbol, option type and side, the plan carries exactly the sum of TotalLots*LotSize of the selected legs |
| `ChunkerProperties.PlanPermutes` | services/execution-gateway/internal/trading/chunker.go:165-187 | Interleaving loses, adds and duplicates no order |
| `ChunkerProperties.PlanUidsDistinct` | services/execution-gateway/internal/trading/chunker.go:80-159 | All order identifiers of a plan are pairwise distinct |
| `ChunkerProperties.PlanShape` | services/execution-gateway/internal/trading/chunker.go:106-187 | The number of chunks is min(7, largest TotalLots), and chunk c interleaves wave c of every leg |
| `ChunkerProperties.WavesAreEven` | services/execution-gateway/internal/trading/chunker.go:106-119 | The seven waves of a leg differ by at most one lot, the larger ones first |
| `ChunkerProperties.PlanOrders` | services/execution-gateway/internal/trading/chunker.go:121-158 | Every order is of one of the legs, with its token, symbol, option type, side and price, and has between one lot and the slice size |
| `ChunkerProperties.PlanWithinLimit` | services/execution-gateway/internal/trading/chunker.go:66-78 | With equal lot sizes no order exceeds max(maxOrderQty, LotSize) |
| `ChunkerProperties.ChunkMergesLegs` | services/execution-gateway/internal/trading/chunker.go:176-182 | A chunk restricted to one leg is that leg's wave, complete and in order |
| `ChunkerProperties.InterleavePermutes` | services/execution-gateway/internal/trading/chunker.go:169-182 | Round robin over any lists is a permutation of their contents |
| `ChunkerProperties.InterleavePreservesOrder` | services/execution-gateway/internal/trading/chunker.go:176-182 | Round robin keeps the elements of each list complete and in order |
| `ChunkerProperties.ChunkLegsInStep` | services/execution-gateway/internal/trading/chunker.go:165-187 | At every point of every chunk of a plan, two legs that both have orders left in it differ by at most one order |
| `ChunkerProperties.LegsInStep` | services/execution-gateway/internal/trading/chunker.go:176-182 | The same for the round robin of any separate lists |
| `ChunkerProperties.EqualLegsStayBalanced` | services/execution-gateway/internal/trading/chunker.go:165-187 | For two legs of equal lots and lot size, at every prefix of the whole plan the quantities are equal or the first leg leads by exactly its last order |
| `BuildProperties.BuiltMeansFilledExactlyOnce` | services/execution-gateway/internal/trading/service.go:438-530 | If the build returns nil against any broker, each order has exactly one submission answered FILLED/SUCCESS, and it is its last |
| `BuildProperties.ChunksInSequence` | services/execution-gateway/internal/trading/service.go:438-530 | In every build, before anything of a later chunk is submitted every order of the earlier chunk has been filled |
| `BuildProperties.OpenAnswerStopsBuild` | services/execution-gateway/internal/trading/service.go:503-519 | An answer that is neither filled nor REJECTED/CANCELLED is the last submission of the run and is the pending-fill failure, and that failure occurs only then |
| `BuildProperties.AtMostThreeSubmissions` | services/execution-gateway/internal/trading/service.go:440-447 | No order is submitted more than three times |
| `BuildPrices.LimitIsBuffered` | services/execution-gateway/internal/trading/service.go:456-458 | In every build, the limit price of a submission is a multiple of 0.05 nearest to the expected price less the sell buffer (2.0 unless a positive one is configured) times one more than the number of earlier submissions of the same order, not below 0.05 |
| `BuildPrices.AttemptsCountSubmissions` | services/execution-gateway/internal/trading/service.go:440-458 | The attempt number that prices a submission is the number of earlier submissions of that order in the log |
| `Rounding.RoundHalves` | services/execution-gateway/internal/trading/service.go:456-458 | Halves are rounded away from zero |
| `BuildPrices.SubmissionSaysOrder` | services/execution-gateway/internal/trading/service.go:460-478 | In every build, a submission carries its order's identifier, token, symbol, side, option type, price and positive quantity, for this trade and phase, and the order is planned in its chunk |
| `BuildPrices.AnswersRead` | services/execution-gateway/internal/trading/service.go:480-519 | An answer counts as filled exactly for FILLED and SUCCESS, and is retried exactly for an error, REJECTED or CANCELLED |
| `BuildPrices.GivesUpAfterThree` | services/execution-gateway/internal/trading/service.go:525-527 | A build gives up on a chunk only after some order of it was submitted exactly three times and each time failed, REJECTED or CANCELLED |
| `BuildPrices.BadQuantityIsPlanned` | services/execution-gateway/internal/trading/service.go:448-454 | A build fails for a quantity only if a planned order has a quantity that is not positive |
| `BuildProperties.PricesNeverRise` | services/execution-gateway/internal/trading/service.go:456-458 | Limit prices are positive multiples of 0.05 and an order's successive prices do not rise |
| `BuildProperties.LimitNonIncreasing` | services/execution-gateway/internal/trading/service.go:456-458 | Later attempts of an order have limits no higher, never below 0.05 |
| `BuildProperties.BuildReplies` | services/execution-gateway/internal/trading/service.go:480-487 | The broker is asked once per submission, in order, and the log holds its answers |
| `BuildProperties.BuildIsOk` | services/execution-gateway/internal/trading/service.go:432-531 | The conjunction of the build invariants, for every outcome of every build |
| `BuildExecutor.SubmitOrder` | services/execution-gateway/internal/trading/service.go:456-501 | One submission: intent appended, row inserted if new, execution recorded if the broker answered; other trades untouched |
| `BuildExecutor.ExecutePass` | services/execution-gateway/internal/trading/service.go:447-520 | The inner loop computes the specified pass, and table and intent list follow its log |
| `BuildExecutor.ExecuteChunk` | services/execution-gateway/internal/trading/service.go:440-527 | The retry loop computes the specified chunk run with the table following its log |
| `BuildExecutor.ExecuteAllChunks` | services/execution-gateway/internal/trading/service.go:438-530 | The chunk loop computes the specified build with the table following its log |
| `BuildExecutor.ExecuteBuild` | services/execution-gateway/internal/trading/service.go:432-531 | Result, order table and intent list are those of the specified build |
| `BuildExecutor.ReplayConcat` | services/execution-gateway/internal/trading/store_postgres.go:194-301 | The table after two logs is the table after the second, started from the table after the first |
| `OrderTable.RecordKeepsIds` | services/execution-gateway/internal/trading/store_postgres.go:194-212 | Recording a submission keeps intent ids unique, keeps every other row, and leaves a row for the intent |
| `DeploymentCycle.CycleEndsFlat` | services/execution-gateway/internal/trading/service.go:641-716 | Deploy and square off: a chunked plan of at most ten legs built with exact fills by any broker, then squared off to CLOSED, is flat if and only if the closing fills were exact |
| `DeploymentCycle.DeploymentNets` | services/execution-gateway/internal/trading/service.go:384-407 | After a nil build with exact fills the square-off nets every position to exactly what the legs buy less what they sell |
| `DeploymentCycle.SquareOffUndoesDemand` | services/execution-gateway/internal/trading/squareoff_intents.go:116-173 | From such a table the square-off creates one order for every key with demand: a BUY of what was sold on balance, a SELL of what was bought |
| `DeploymentCycle.SoldDemand` | services/execution-gateway/internal/trading/service.go:358-383 | For legs that all sell, the net under a key is minus their whole demand |
| `DeploymentCycle.BuildNets` | services/execution-gateway/internal/trading/service.go:432-531 | The same netting for any plan with distinct identifiers |
| `DeploymentCycle.RefreshIgnoresSquareOff` | services/execution-gateway/internal/trading/lifecycle_refresh.go:60-109 | The rows a square-off adds, whatever their answers, leave the recomputed status of the trade as it was, unless the symbol's code is BUI |
| `DeploymentCycle.ClosingRowCounted` | services/execution-gateway/internal/trading/lifecycle_refresh.go:66-74 | A closing row counts as a build row if and only if the code of its symbol is BUI |
| `Deployment.DeploymentFillsDemand` | services/execution-gateway/internal/trading/service.go:384-407 | Chunker and build together: if the build of a chunked plan succeeds, the quantity filled in any selection of lines is exactly the demand of the selected legs |
| `Deployment.BuildFillsThePlan` | services/execution-gateway/internal/trading/service.go:432-531 | A successful build fills the planned orders and nothing else, each once |
| `Deployment.ChunkerPlansAreDistinct` | services/execution-gateway/internal/trading/chunker.go:80-159 | Every chunker plan meets the premise of the build theorems |
| `Lifecycle.RefreshMeaning` | services/execution-gateway/internal/trading/lifecycle.go:90-116 | For any table: ACTIVE exactly when there are build rows and all count as filled; PENDING_FILL exactly when not all do but some row is filled, pending or unknown |
| `Lifecycle.RefreshReads` | services/execution-gateway/internal/trading/lifecycle_refresh.go:60-109 | The same in terms of the stored columns alone: which identifiers or phase make a row of the trade a build row, and which statuses and quantities make it full, open or unknown |
| `Lifecycle.CountMeaning` | services/execution-gateway/internal/trading/lifecycle_refresh.go:60-103 | A count is positive exactly when some build row falls in its bucket, and equals the total exactly when every build row does |
| `Lifecycle.ReplayMatches` | services/execution-gateway/internal/trading/store_postgres.go:156-301 | After any build log for a fresh trade, the table is the old one plus one row per submitted order, with the order's data, the limit price of its first submission, and status, quantities and price of its last answer |
| `Lifecycle.RefreshAfter` | services/execution-gateway/internal/trading/lifecycle_refresh.go:60-109 | The refreshed status after any log is decided by where the submitted orders stand |
| `Lifecycle.BuiltRefreshesActive` | services/execution-gateway/internal/trading/service.go:398-407 | After a nil build the refreshed status is the written one if and only if something was submitted and every fill was reported in full |
| `Lifecycle.PendingRefreshesPending` | services/execution-gateway/internal/trading/lifecycle.go:57-62 | A build stopped by an open answer writes PENDING_FILL, and is read back as such if and only if the query takes that answer for open or another order was filled in full or never answered |
| `Lifecycle.FailedRefreshesFailed` | services/execution-gateway/internal/trading/lifecycle.go:57-62 | A build that gave up is read back as FAILED if and only if no order was filled in full or never answered |
| `Lifecycle.StatusesAgreeExactly` | services/execution-gateway/internal/trading/lifecycle_refresh.go:60-109 | For every outcome of every build, exactly which answers make the written and the recomputed status agree |
| `Lifecycle.OneLCancellationDisagrees` | services/execution-gateway/internal/trading/lifecycle_refresh.go:86-95 | A broker answering "CANCELED" makes the build write PENDING_FILL and the refresh say FAILED |
| `Lifecycle.FailedBuildCanHoldPosition` | services/execution-gateway/internal/trading/service.go:503-527 | One leg filled, the other rejected three times: FAILED is written although a position is open, and the refresh says PENDING_FILL |
| `GreeksoftExecutor.ExecuteOrderIntent` | services/execution-gateway/internal/brokers/greeksoft/executor.go:26-97 | The answer is the specified function of what the broker says to the placement and to the polls |
| `GreeksoftExecutor.WaitOrderStatus` | services/execution-gateway/internal/brokers/greeksoft/executor.go:99-180 | The polling loop returns the first entry found within eight polls, unless cancelled before |
| `GreeksoftExecutor.NormalizedStatus` | services/execution-gateway/internal/brokers/greeksoft/executor.go:182-228 | A normalised status is never empty or "CANCELED", and anything containing REJECT becomes REJECTED |
| `GreeksoftExecutor.NormalizeIdempotent` | services/execution-gateway/internal/brokers/greeksoft/executor.go:182-228 | Normalising twice is normalising once |
| `GreeksoftExecutor.NormalizeReads` | services/execution-gateway/internal/brokers/greeksoft/executor.go:182-228 | The status every text is normalised to, spelling by spelling |
| `GreeksoftExecutor.FoundWithinEight` | services/execution-gateway/internal/brokers/greeksoft/executor.go:99-180 | An entry is found if and only if one of the first eight polls lists it, with nothing listed and no cancellation before |
| `GreeksoftExecutor.AnswersReflectVenue` | services/execution-gateway/internal/brokers/greeksoft/executor.go:26-97 | An error exactly when placing fails, REJECTED without an order id, the quantities and price of the confirming entry, and zeros with the placement status if nothing confirms |
| `GreeksoftExecutor.ConfirmedReads` | services/execution-gateway/internal/brokers/greeksoft/executor.go:68-85 | A confirmed order with a fill is FILLED exactly when nothing is pending and the fill covers a positive quantity, else PARTIALLY_FILLED, unless it was rejected or cancelled |
| `GreeksoftExecutor.FilledIsFull` | services/execution-gateway/internal/brokers/greeksoft/executor.go:68-85 | An answer FILLED/SUCCESS reports the whole quantity if and only if the order book confirmed a positive fill |
| `GreeksoftExecutor.OpenReadsPending` | services/execution-gateway/internal/brokers/greeksoft/executor.go:37-85 | An open answer is counted as open by the refresh if and only if it is not the unconfirmed "CANCELED" or a complete entry with a remainder |
| `GreeksoftExecutor.GreeksoftBuiltReadsActive` | services/execution-gateway/internal/brokers/greeksoft/executor.go:26-97 | A nil build through this executor is read back as ACTIVE if and only if something was submitted and every fill was confirmed with a positive quantity |
| `GreeksoftExecutor.GreeksoftStoppedReadsPending` | services/execution-gateway/internal/brokers/greeksoft/executor.go:26-97 | A stopped build through this executor is read back as PENDING_FILL if and only if its last answer is neither of those two, or another order was filled in full or never answered |
| `GreeksoftExecutor.EmptyFills` | services/execution-gateway/internal/brokers/greeksoft/executor.go:37-97 | A listed COMPLETE without quantity, and an unlisted order placed as FILLED, are both answered FILLED with quantity zero |
| `GreeksoftExecutor.EmptyFillDisagrees` | services/execution-gateway/internal/brokers/greeksoft/executor.go:37-97 | A one-order build on either writes ACTIVE while the refresh says FAILED |
| `Netting.NettingsAgree` | services/execution-gateway/internal/trading/squareoff_intents.go:68-110 | Under every positive-token key the square-off nets any table as its plan does if and only if every contributing side that trims to SELL is SELL untrimmed |
| `ExecutionSummary.SummaryMatchesPlan` | services/execution-gateway/internal/trading/execution_summary.go:175-199 | The summary's own fold shows, under every key of every table, the net quantity of the square-off plan |
| `ExecutionSummary.SameKeys` | services/execution-gateway/internal/trading/execution_summary.go:175-185 | Summary and plan list the same keys |
| `ExecutionSummary.SummaryIsFiled` | services/execution-gateway/internal/trading/execution_summary.go:175-185 | Every position of the summary is listed under its own symbol, leg type and token |
| `ExecutionSummary.AveragesAgreeThroughout` | services/execution-gateway/internal/trading/execution_summary.go:192-197 | The summary's running average equals the plan's volume-weighted price at every point of a table if and only if every fill comes while nothing under its key has been offset, or at the average so far |
| `ExecutionSummary.AveragesAgreeAtAnyPrices` | services/execution-gateway/internal/trading/execution_summary.go:192-197 | For a table ending with a fill, the two averages agree whatever the prices if and only if all fills before the last are on one side |
| `ExecutionSummary.OffsetAverageDisagrees` | services/execution-gateway/internal/trading/execution_summary.go:192-197 | Bought at 100, sold at 200, bought at 300: the summary shows 300, the plan 200 |
| `ExecutionSummary.Summarize` | services/execution-gateway/internal/trading/execution_summary.go:175-199 | The position loop computes the specified summary |
| `Netting.UntrimmedSideDisagrees` | services/execution-gateway/internal/trading/squareoff_plan.go:176-183 | A row with side "sell " is a sale for the square-off and a purchase for the plan |
| `Netting.KeyToken` | services/execution-gateway/internal/trading/squareoff_intents.go:90-90 | The textual position key determines the token, whatever symbol and leg type contain |
| `Netting.KeyDetermines` | services/execution-gateway/internal/trading/squareoff_intents.go:90-90 | A key determines symbol, leg type and token if the leg type has no separator in it |
| `Netting.NextRowReads` | services/execution-gateway/internal/trading/squareoff_intents.go:68-110 | One more row moves net quantity, value and volume of a key by its fill exactly if it is a FILLED or SUCCESS row of the trade with a positive fill filed under that key, a sale down and anything else up |
| `Netting.Accumulate` | services/execution-gateway/internal/trading/squareoff_intents.go:47-110 | The accumulating loop ends with one position per key, holding the totals of exactly the rows under it |
| `Netting.PostAccounts` | services/execution-gateway/internal/trading/squareoff_plan.go:146-184 | Posting one more row keeps the positions in account with the rows |
| `SquareOff.PlanMatchesIntents` | services/execution-gateway/internal/trading/squareoff_plan.go:186-224 | Plan legs with a positive token and closing intents correspond: same keys, side, quantity and, where positive, price |
| `SquareOff.ClosedTradeIsFlat` | services/execution-gateway/internal/trading/service.go:641-716 | Whenever a square-off sets CLOSED (rows of the trade's symbol, ids new to the table), every position nets to zero if and only if the closing ids are distinct and the fills were reported for exactly the quantity asked; a further square-off, at any time, then has nothing to close |
| `SquareOff.ClosedFlatExactly` | services/execution-gateway/internal/trading/service.go:688-713 | The same equivalence for any closing orders reported filled |
| `SquareOff.CollidedStaysOpen` | services/execution-gateway/internal/trading/store_postgres.go:193-194 | A closing order that shares the id of an earlier one gets no row, and its position stays exactly as open as it was |
| `SquareOff.ClosingIdsDistinctExactly` | services/execution-gateway/internal/trading/squareoff_intents.go:139-173 | The intent ids of one square-off are distinct if and only if no two of its orders after the first have the same leg code and suffixes cut to the same digits |
| `ElevenLegs.EleventhPositionStaysOpen` | services/execution-gateway/internal/trading/squareoff_intents.go:116-173 | Eleven open call positions: orders 1 and 10 get one id; all eleven are reported filled in full, the trade is CLOSED, and the position of order 10 is still open |
| `SquareOff.ClosedMeansFlat` | services/execution-gateway/internal/trading/squareoff_intents.go:112-170 | With fresh distinct ids, flat if and only if every fill is exact |
| `SquareOff.FlatHasNothingToClose` | services/execution-gateway/internal/trading/squareoff_intents.go:116-124 | A flat table yields no closing intent |
| `SquareOff.NetAfter` | services/execution-gateway/internal/trading/service.go:688-707 | Every position after a square-off, for any answers: closed by exactly what was reported filled |
| `SecondSquareOff.SecondCallOrders` | services/execution-gateway/internal/trading/squareoff_intents.go:49-173 | A second square-off orders, position by position, exactly what the first has not been reported to have filled |
| `SecondSquareOff.RepeatedExactly` | services/execution-gateway/internal/trading/service.go:647-651 | An order of the first call is repeated in full if and only if no fill has been reported for it, so also while it is still open |
| `SecondSquareOff.TwoCallsCloseOnce` | services/execution-gateway/internal/trading/service.go:641-716 | Two calls, the second filled exactly: after the last reports on the first orders every position is closed exactly once if and only if each report counts for what the first call had recorded |
| `SecondSquareOff.LateReports` | services/execution-gateway/internal/trading/store_postgres.go:269-280 | Later reports on closing orders overwrite what was recorded for them and nothing else |
| `SecondSquareOff.SameSecondIds` | services/execution-gateway/internal/trading/helpers.go:65-74 | Orders of two calls in the same second share an id if and only if their leg codes agree and their numbers are equal or cut to the same digits |
| `SecondSquareOff.SameSecondHidesOrders` | services/execution-gateway/internal/trading/store_postgres.go:193-194 | A second call in the same second with the same orders submits them again and leaves the table as if only it had been made |
| `SquareOff.SquareOffRows` | services/execution-gateway/internal/trading/service.go:688-707 | With fresh ids, a square-off leaves all old rows alone and adds one row per closing order with its own answer |
| `SquareOff.TenLegsAreDistinct` | services/execution-gateway/internal/trading/squareoff_intents.go:139-173 | Up to ten closing intents of one call always have distinct intent ids |
| `ShortIds.ShortUidsEqual` | services/execution-gateway/internal/trading/helpers.go:65-74 | Two short identifiers of one symbol and time, of any legs and suffixes, are equal if and only if the legs are and the digits surviving the cut are |
| `ShortIds.IndexCodes` | services/execution-gateway/internal/trading/helpers.go:10-35 | The codes of the six indices, and of other symbols their first three letters in upper case, fewer if there are fewer |
| `ShortIds.LegCodes` | services/execution-gateway/internal/trading/squareoff_intents.go:139-147 | Calls and puts, in either case, and everything else have their own leg codes |
| `SquareOff.CreateIntents` | services/execution-gateway/internal/trading/squareoff_intents.go:19-180 | One closing intent per open position, in some order of the map, each inserted into the table |
| `SquareOff.ClosingOrderSays` | services/execution-gateway/internal/trading/squareoff_intents.go:116-173 | A closing order names its trade, leg and token, is a BUY of a short or a SELL of a long net quantity over the table, priced at the volume-weighted fill price or at 0.05 |
| `SquareOff.ClosingOrderUids` | services/execution-gateway/internal/trading/squareoff_intents.go:139-173 | Two closing orders of one call have the same OrderUID if and only if their leg codes agree and their numbers from 100 on are cut to the same digits |
| `SquareOff.ClosedWhen` | services/execution-gateway/internal/trading/service.go:688-716 | The status becomes CLOSED exactly when every closing order was sent and answered FILLED or SUCCESS, and SQUARING_OFF otherwise |
| `SquareOff.ExecuteIntents` | services/execution-gateway/internal/trading/service.go:688-707 | Asks the broker for each order in turn and records every answer; stops at the first error, otherwise all are answered |
| `SquareOff.CloseOut` | services/execution-gateway/internal/trading/service.go:656-716 | By the live switch: without it and for a broker other than SIM nothing is sent and there is no error; without an executor nothing is sent and that is the error; otherwise the answers are the broker's, one per order until all are answered or one fails; rows and status follow from them |
| `SquareOff.Execute` | services/execution-gateway/internal/trading/service.go:641-716 | The whole call: unknown trade, PENDING_FILL refusal, nothing to close, and otherwise closing orders for the open positions, sent or withheld by the live switch, with rows and status following the answers |
| `BseFeed.RoundTrip` | services/feed-decoder/src/message_parser.cpp:255-429 | Any 2020/2021 packet of the inverse encoder is read back: every record's token, LTP, best bid and best ask in order and its tenth statistic as 32-bit open interest, leaving exactly the bytes after it |
| `BseFeed.ReadRecordsBack` | services/feed-decoder/src/message_parser.cpp:327-429 | Each record starts exactly where the one before ended |
| `BseFeed.ReadRecordBack` | services/feed-decoder/src/message_parser.cpp:330-408 | One encoded record, of either token width, is read back with nothing left over |
| `BseFeed.ReadHeadBack` | services/feed-decoder/src/message_parser.cpp:330-345 | The fixed fields of a record are read back |
| `BseFeed.ReadLadderBack` | services/feed-decoder/src/message_parser.cpp:358-408 | A ladder with deltas, escapes and an end marker only when short is read back exactly |
| `BseFeed.ReadStatsBack` | services/feed-decoder/src/message_parser.cpp:350-356 | The twelve statistics are read back relative to their bases |
| `BseFeed.ReadCompressedBack` | services/feed-decoder/src/message_parser.cpp:81-88 | A compressed number is read back, by delta or by escape |
| `BseFeed.CompressedReach` | services/feed-decoder/src/message_parser.cpp:81-88 | Exactly the numbers near the base or of 32 unsigned bits can come out of the compressed format |
| `BseCursor.BseParser.NextU16` | services/feed-decoder/src/message_parser.cpp:52-57 | Reads two bytes big-endian or, past the end, zero without moving; the cursor is left where the specification leaves it |
| `BseCursor.BseParser.NextS16` | services/feed-decoder/src/message_parser.cpp:45-50 | The signed form; the cursor is left where the specification leaves it |
| `BseCursor.BseParser.NextU32` | services/feed-decoder/src/message_parser.cpp:59-67 | Four bytes likewise; the cursor is left where the specification leaves it |
| `BseCursor.BseParser.NextU64` | services/feed-decoder/src/message_parser.cpp:69-74 | Eight bytes, nothing when fewer are left; the cursor is left where the specification leaves it |
| `BseCursor.BseParser.SkipBytes` | services/feed-decoder/src/message_parser.cpp:76-79 | Moves on, at most to the end; the cursor is left where the specification leaves it |
| `BseCursor.BseParser.NextCompressed` | services/feed-decoder/src/message_parser.cpp:81-88 | Delta or escaped value; the cursor is left where the specification leaves it |
| `BseCursor.BseParser.NextHead` | services/feed-decoder/src/message_parser.cpp:330-345 | The fixed fields of a record; the cursor is left where the specification leaves it |
| `BseCursor.BseParser.NextOpenInterest` | services/feed-decoder/src/message_parser.cpp:348-356 | The loop over the statistics keeps the tenth as 32-bit open interest; the cursor is left where the specification leaves it |
| `BseCursor.BseParser.NextQuantities` | services/feed-decoder/src/message_parser.cpp:375-378 | The four numbers of a level; the cursor is left where the specification leaves it |
| `BseCursor.BseParser.NextPrice` | services/feed-decoder/src/message_parser.cpp:369-371 | The price of a level; the cursor is left where the specification leaves it |
| `BseCursor.BseParser.NextLadder` | services/feed-decoder/src/message_parser.cpp:358-382 | The level loop returns the first price and stops where the specification does; the cursor is left where the specification leaves it |
| `BseCursor.BseParser.NextRecord` | services/feed-decoder/src/message_parser.cpp:330-408 | A whole record; the cursor is left where the specification leaves it |
| `BseCursor.ReadAll` | services/feed-decoder/src/message_parser.cpp:327-429 | The record loop passes on the ticks of known contracts and stops at the end of the packet |
| `BseCursor.ParseBse` | services/feed-decoder/src/message_parser.cpp:255-429 | For any bytes, delivers the known ticks of the specified parse |
| `BseCursor.PacketIsDelivered` | services/feed-decoder/src/message_parser.cpp:255-429 | An encoded packet of known contracts, whatever follows it, is delivered as exactly one tick per record, in order |
| `BseCursor.OthersAreIgnored` | services/feed-decoder/src/message_parser.cpp:261-326 | Packets under 28 bytes or of a type other than 2020 and 2021 deliver no contract tick |
| `BseCursor.KnownMeaning` | services/feed-decoder/src/message_parser.cpp:410-427 | A tick is passed on exactly if its token is a known contract, in the order read |
| `Strikes.SnapWithinOneStep` | services/feed-decoder/src/chain_builder.cpp:188-196 | The snapped strike is listed, and no listed strike is nearer by more than one step |
| `Strikes.SnapNearestExactly` | services/feed-decoder/src/chain_builder.cpp:151-196 | On ascending strikes, snapping finds a nearest strike for every price if and only if the midpoint of every two neighbours is an odd multiple of half the step |
| `Strikes.MissedPrice` | services/feed-decoder/src/chain_builder.cpp:188-196 | Two neighbours whose midpoint is not such a multiple have a price that is snapped to a strike farther than one of them |
| `Strikes.SnapIsNearestOnRegularStrikes` | services/feed-decoder/src/chain_builder.cpp:151-196 | On consecutive multiples of a step snapping is always right |
| `Strikes.SnapMissesNearest` | services/feed-decoder/src/chain_builder.cpp:188-196 | On the strikes 0, 30, 100 the price 66 is snapped to 30 although 100 is nearer |
| `Strikes.NearestIsNearest` | services/feed-decoder/src/chain_builder.cpp:168-183 | The nearest-strike loop's specification is listed and nearest |
| `Strikes.StepIsSmallestGap` | services/feed-decoder/src/chain_builder.cpp:151-163 | The step is a positive gap between neighbours and no larger than any, or 50 if there is none |
| `Strikes.DetectStrikeStep` | services/feed-decoder/src/chain_builder.cpp:151-163 | The loop finds the smallest positive gap, or 50 |
| `Strikes.NearestStrike` | services/feed-decoder/src/chain_builder.cpp:168-183 | The loop finds the specified nearest strike, zero for an empty chain |
| `Strikes.RoundToGapAndSnap` | services/feed-decoder/src/chain_builder.cpp:188-196 | Rounding and snapping as specified |
| `OptionChains.TicksAlwaysMatchScan` | services/feed-decoder/src/chain_builder.cpp:318-403 | At every point of every history with unique tokens, a tick changes exactly what a scan of all chains would, nothing if the scan finds none, despite stale index entries |
| `OptionChains.TickMatchesScan` | services/feed-decoder/src/chain_builder.cpp:367-403 | The same for one tick on a book whose index is right |
| `OptionChains.HistoryIndexOk` | services/feed-decoder/src/chain_builder.cpp:318-403 | In every such history every stored token is indexed at its row |
| `OptionChains.SetChainKeepsIndex` | services/feed-decoder/src/chain_builder.cpp:318-338 | Storing or replacing a chain keeps the index right |
| `OptionChains.QuotesAreLastTicks` | services/feed-decoder/src/chain_builder.cpp:367-403 | The price shown for a token is that of its last tick since its chain was stored |
| `OptionChains.FutureIsLastSpot` | services/feed-decoder/src/chain_builder.cpp:347-362 | The future price of a chain is the last positive one ticked for its symbol since it was stored |
| `OptionChains.UnderlyingFollowsParity` | services/feed-decoder/src/chain_builder.cpp:275-311 | Between reseeds a positive underlying stays positive and each change sets it to strike+CE-PE of a listed row with both prices positive |
| `OptionChains.FallsBackAtMostOnce` | services/feed-decoder/src/chain_builder.cpp:304-308 | From one storing of a chain to the next, the fallback branch to the monthly future is taken at most once |
| `OptionChains.HandedIsRecalculated` | services/feed-decoder/src/chain_builder.cpp:318-403 | Every operation recalculates exactly the chains it touches and leaves the others alone |
| `OptionChains.UnderlyingStaysPositive` | services/feed-decoder/src/chain_builder.cpp:275-311 | Between reseeds a positive underlying stays positive |
| `OptionChains.RecomputeUnderlying` | services/feed-decoder/src/chain_builder.cpp:275-311 | A recomputation changes the underlying only to a positive parity value, or to the monthly future if it was not positive |
| `OptionChains.RecomputeExactly` | services/feed-decoder/src/chain_builder.cpp:275-311 | The underlying after a recalculation, in every case: the positive parity value of the strike to which the future or its proxy is snapped, else that price if the underlying was not positive, else unchanged, and unchanged after expiry or without a price |
| `OptionChains.ParityMeaning` | services/feed-decoder/src/chain_builder.cpp:251-258 | The parity value of a strike is strike+CE-PE of its first row with both prices positive, and zero without one |
| `ChainBuilders.SyntheticFromStrike` | services/feed-decoder/src/chain_builder.cpp:251-258 | The loop returns the parity value of the first fully quoted row of a strike |
| `ChainBuilders.RecomputeChain` | services/feed-decoder/src/chain_builder.cpp:275-311 | The chain after a recalculation is the specified one |
| `ChainBuilders.ChainBuilder.StoreChain` | services/feed-decoder/src/chain_builder.cpp:318-342 | Chains and index are updated as specified |
| `ChainBuilders.ChainBuilder.UpdateOptionPrice` | services/feed-decoder/src/chain_builder.cpp:367-403 | Chains are updated as specified, for unknown, stale and current tokens |
| `ChainBuilders.ChainBuilder.UpdateSpotPrice` | services/feed-decoder/src/chain_builder.cpp:347-362 | Every chain of the symbol is updated, in any map order |
| `AtmPublisher.PublishedChainsHaveOneAtm` | services/feed-decoder/src/main.cpp:350-412 | For any contract table with distinct tokens in any order, and any ticks, every published non-empty chain has exactly one at-the-money row, and its strike is the published one |
| `AtmPublisher.ExactlyOneAtm` | services/feed-decoder/src/main.cpp:350-412 | A published chain with distinct strikes has exactly one marked row, for any prices |
| `AtmPublisher.AtmFollowsUnderlying` | services/feed-decoder/src/main.cpp:383-389 | If the published underlying is positive, the published strike is that price snapped to the chain and no listed strike is nearer by more than one step; otherwise it is the middle strike |
| `AtmPublisher.UnderlyingIsPublished` | services/feed-decoder/src/main.cpp:350-381 | The published underlying is the positive parity value of the strike to which the future, its proxy or the middle strike is snapped; without one the stored underlying, and without that the future tick |
| `AtmPublisher.RowsArePublished` | services/feed-decoder/src/main.cpp:391-412 | Row by row, the snapshot carries strike, call token and put token of the chain, and the future tick where it is positive |
| `AtmPublisher.SeededChainsAreUntouched` | services/feed-decoder/src/main.cpp:248-301 | Seeded chains start without any price |
| `AtmPublisher.PublishChain` | services/feed-decoder/src/main.cpp:350-412 | The publisher's assignments and row loop compute the specified snapshot |
| `AtmPublisher.FindAtmRow` | services/execution-gateway/internal/trading/helpers.go:76-84 | Returns the first marked or matching row; where there is exactly one, that row |
| `AtmPublisher.SeededChainsAreSound` | services/feed-decoder/src/main.cpp:248-301 | Seeded and sorted chains have strictly ascending strikes and no token in two rows, for any visiting order |
| `AtmPublisher.SeededChainsHoldTheTable` | services/feed-decoder/src/main.cpp:248-301 | They hold, for every chain, strike and side, the token of the last option contract visited for it, and nothing else |
| `AtmPublisher.SeedChains` | services/feed-decoder/src/main.cpp:248-283 | The seeding loop computes the specified chains |

## Left out

- Sockets, HTTP, shared memory, sessions, logging and the UI; SQL and JSON text: only the effect of
  the SQL on order rows is modelled, and the stored request enters as trimmed fields of the row.
- Floating point: prices, deltas and buffers are exact reals; rounding to whole numbers and to 0.05 is
  modelled. Text printed with limited precision is not.
- Fixed-width overflow of quantities and counters: integers are unbounded, except for the price buffer
  of a chased order and where the feed decoder and the token index convert between signed and
  unsigned fields.
- Unicode: white space and letter case are ASCII.
- Greeks, implied volatility and the days-to-expiry computation; whether a chain has expired enters a
  recalculation as a boolean.
- The parity proxy that replaces a missing future tick (the median of nearby strikes) enters as an
  arbitrary number, so the results hold for whatever it computes.
- BSE index broadcasts (2011/2012), the NSE 7208 parser and LZO decompression; contract lookup by
  masked token: known contracts are a set of tokens.
- The worker's scan of shared memory for the at-the-money node; the quote it finds is an input.
- `DeployStraddle` up to the chunker: validation, lot sizes and its delta ratio.
- `BuildStraddle`, partial square-off, manual hedge, stop-loss and hedge monitors, the Greeks monitor,
  the correlation map, snapshots and runtime records.
- Whether a broker error leaves a live order behind: results about builds are about answers received.
- The fallback `MarkOrderSubmitted` for stores without `MarkOrderExecution`, and the in-memory cache of
  trades in front of the table.
- The search for an order inside the order-book JSON; a poll finds an entry or does not.
- The lot count and warnings of plan legs; the grouping and counting of orders in the summary.
