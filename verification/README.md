# Verification of the Solana copy trader's core

A Dafny model of the parts of the repository that decode Solana entries, copy trades, manage positions
and exits, reuse pre-built transactions, keep subscriptions and derive trades from token balances, with
proofs about them. `dafny verify dfyconfig.toml` checks the whole project.

**Wire format** (`Bits`, `Binary`, `SolanaTx`, `TransactionFormat`, `CutTransactions`, `Doubles`,
`Entries`, `EntriesProperties`, `CutEntries`). Transactions in a block of entries carry no length, so each
boundary is found by walking over the message. The walk is lax: a count that is cut short reads as an
empty vector, and the last vector is not checked against the buffer. The model states the lax walk as
written, a strict grammar, and an encoder, and proves how far the three agree, in both directions, and
what the walk makes of every encoding that is cut short.

**Copying** (`Positions`, `PositionLedger`, `PositionHistory`, `CopyEngine`, `CopyEngineSafety`,
`CopyEngineAccounting`, `CopyEngineOutcomes`, `CopyEngineOverlap`, `CopyEngineLimits`,
`CopyEngineDuplicates`, `CopyEngineLedger`, `PriceUnits`). `processTrade` runs without interruption from
one await to the next. Each such stretch is one step of a machine, any sequence of steps of any trades is
an interleaving, and every method of the modelled classes is proved to make exactly one step. Results of
awaited calls are inputs. Money and prices are reals, token amounts are integers.

**Exits and the transaction cache** (`Exits`, `ExitHistory`, `ExitAccounting`, `ExitOutcomes`,
`ExitKinds`, `ExitReopening`, `ExitCourse`, `ExitSells`, `ExitAnswers`, `ExitPercents`, `TxCache`,
`TxCacheReuse`, `TxCacheSends`, `TxCacheBuilds`, `CopyEngineCache`). The same kind of machine for the exit
manager's checks, which overlap when a round takes longer than the timer's interval, and for buys,
rebuilds and refreshes around the cache; the last module puts the copying engine on top of the cache.

**Subscriptions and deltas** (`Subscriptions`, `Decimals`, `TokenDeltas`, `TokenRecords`,
`TradeDetection`). The index is the image of one relation; the deltas are sums over the balance records,
written as decimal strings.

`Wrappers`, `Sets` and `Repetition` hold general definitions.

## Where the code and its description differ

The model follows the code. For each case below a lemma reaches a failing run or input, and another says
exactly when the description holds.

- `POSITION-MANAGEMENT.md:189` says that checking limits before executing prevents over-exposure. The
  check and the recording of a buy are different steps, so overlapping buys pass it together
  (`OverlapAttains`, `OverlapAttainsCount`). `CostBound` and `CountBound` give the guarantee for every run,
  `SafeToSettleIff` and `SafeToSettleCountIff` the condition under which the buys in flight can no longer
  break a limit, and `ExposureHoldsIff`, `PositionSizeHoldsIff` and `CountHoldsIff` the configurations that
  keep each limit in every run.
- `README.md:208` says that the same transaction is not copied twice. Detection and admission are
  different steps unless there is neither filter nor position manager (`NoDuplicatesIff`), and the guard
  forgets a transaction once its copy has settled (`CopiedAgain`). A transaction is copied at most as often
  as it is delivered (`CopiesWithinDetections`), and once if it is delivered once (`DeliveredOnceCopiedOnce`,
  `CopiedOnceIff`).
- A successful swap whose amount cannot be read counts as a success and as a failure (`CountedTwice`); the
  attempts balance exactly if there is none (`AccountsAlwaysHold`).
- `src/services/exit-manager.ts:47` calls the marked levels executed. They are marked whether or not the
  sell succeeded (`FailedSellHits`, `OutcomesDoNotMatter`), so they are the executed ones exactly where no
  sell fails (`HitsExecutedIff`). They fire once for each overlapping check before they are marked
  (`OverlapFiresEach`, `RepeatsIff`).
- `src/services/exit-manager.ts:45` promises that levels are tracked for each position. They are tracked for
  each token and kept when a position is closed and opened again (`ReopenedIsNotSold`, `FreshCheckFiresIff`).
- `SMART-FILTERS-AND-EXITS.md:125-129` says that each step of the take-profit ladder sells a part of what
  remains. The portions are of the recorded amount (`src/services/exit-manager.ts:335`), which no exit
  changes. So one check can try to sell more than there is, 275 percent with the default strategy
  (`ShippedAttempts`), and the whole position more than once (`FullSellsTwice`). `AttemptedWithinIff` and
  `FullSellsOnceIff` say which strategies exclude this.
- `README.md:225` says that exits look at the profit against the entry. The engine records the price of a
  smallest unit (`src/services/copy-trade-engine.ts:238-240`), and the exit manager compares it with the
  price that the price service quotes, taken here to be that of a whole token. The profit is then right
  exactly for tokens without decimals (`BreakEvenSeems`, `ObservedProfitIff`).
- `src/utils/entries.ts:16-25` names a format in which each entry has the transactions that it announces.
  Entries that are cut short are returned without saying so (`CutShort`, `CutIsReturned`), and a transaction
  that lacks content of its last vector counts as whole (`CutUnnoticedIff`). An input is decoded faithfully
  exactly where it begins with an encoding (`FaithfulIffEncoded`).
- `src/services/jupiter-executor.ts:609` calls a cached transaction single-use. Overlapping buys of a
  token pick the same one (`OverlapReuses`, `ReusesIff`), and the engine records a full buy for each,
  though a signature is executed once (`RecordedBeyondExecuted`, `SpentBeyondTransactions`).
  `README.md:325-331` promises one for the trade size, but the cache is keyed by token alone, so a buy of
  another amount takes it too (`MismatchedPick`, `AmountsMatchIff`). The engine and the refreshes are
  configured with one amount; only another caller of the public `buyToken` can meet this.
- `src/services/jupiter-executor.ts:370` says that there is always a fresh transaction. The threshold is
  shorter than the interval, which leaves a gap (`RefreshLeavesGap`, `RefreshCoversIff`).
- A token without decimals is rendered as a fraction (`FiveUnits`, `UiStringDenotesIff`), and of several
  earlier balances of one token only the last counts (`TwoAccountsEmptied`, `RawDeltaIsGainIff`).

## Model

| member | source | states |
|---|---|---|
| Bits.OrOfDisjoint | src/utils/binary.ts:5-18 | or-ing shifted bytes adds them when their bits do not overlap |
| Bits.AndOfMask | src/utils/binary.ts:34-40 | masking with ones keeps the low bits, so a continuation bit is dropped |
| Binary.ReadU32 | src/utils/binary.ts:5-12 | the or of four shifted bytes is their base-256 sum, missing bytes counting as 0 |
| Binary.ReadU64 | src/utils/binary.ts:14-18 | the or of two 32-bit halves is the base-256 sum of eight bytes, below 2^64 |
| Binary.U64RoundTrip | src/utils/binary.ts:14-18 | reading the eight little-endian bytes of any u64 gives it back |
| Binary.LittleEndianReprint | src/utils/binary.ts:5-18 | printing what was read gives the same bytes, wherever they are present |
| Binary.ReadCompactU16 | src/utils/binary.ts:24-41 | the masks and shifts give the base-128 number of a complete encoding, and value 0 with length 0 for one cut short |
| Binary.CompactRoundTrip | src/utils/binary.ts:24-41 | reading the canonical encoding of any 16-bit value gives the value and its exact length |
| Binary.CompactBytesShortest | src/utils/binary.ts:24-41 | every other encoding of the same value that the reader accepts is at least as long |
| SolanaTx.ScanRecords | src/utils/solana-tx.ts:50-61 | the record loop (instructions, and lookups in lines 67-78) computes the recursive skip over records, with the same early failure |
| SolanaTx.ScanMessage | src/utils/solana-tx.ts:81-105 | header, keys, blockhash and instructions are skipped as specified, or the scan fails |
| SolanaTx.ScanVersionedMessage | src/utils/solana-tx.ts:28-106 | the first byte 0x80 selects the layout with lookups |
| SolanaTx.MeasureTransactionSize | src/utils/solana-tx.ts:11-112 | the imperative scan computes the measured size, 0 for every early return |
| SolanaTx.StrictImpliesMeasured | src/utils/solana-tx.ts:11-112 | if the strict, bounds-checked grammar consumes n bytes, the scan measures n |
| SolanaTx.MeasuredImpliesStrict | src/utils/solana-tx.ts:11-112 | a measured size that leaves more than 2 bytes of the buffer is exactly what the strict grammar consumes |
| SolanaTx.MeasureIsStrictIff | src/utils/solana-tx.ts:11-112 | a size is strict if and only if the bytes up to it followed by three zeros measure the same |
| SolanaTx.SlackIsTight | src/utils/solana-tx.ts:26-108 | the 2 bytes cannot be lowered: a buffer 2 bytes longer than its measured size that holds no complete transaction |
| SolanaTx.MeasureIsStable | src/utils/solana-tx.ts:11-112 | what follows the first transaction does not change its measured size |
| SolanaTx.TransactionEndLocal | src/utils/solana-tx.ts:11-112 | the strict grammar depends only on the bytes that it consumes |
| SolanaTx.MeasuredSizeAtLeast | src/utils/solana-tx.ts:11-112 | a size that is not 0 is at least 101, and at least 101 bytes were there |
| TransactionFormat.TransactionRoundTrip | src/utils/solana-tx.ts:11-112 | the strict grammar consumes every encoded well-formed transaction, legacy or v0, to its last byte |
| TransactionFormat.MeasureEncoded | src/utils/solana-tx.ts:11-112 | the scan measures every well-formed transaction exactly, whatever follows it |
| TransactionFormat.EncodingsArePrefixFree | src/utils/solana-tx.ts:5-9 | no encoding of a transaction begins with a different one, so boundaries are unambiguous |
| CutTransactions.CutMeasures | src/utils/solana-tx.ts:11-112 | the size that the scan reports for the first n bytes of any well-formed transaction, for every n: each point at which the encoding can be cut |
| CutTransactions.CutUnnoticedIff | src/utils/solana-tx.ts:59-60 | cut anywhere, a transaction is measured in full, beyond the end of the buffer, if and only if only content of its last vector is missing; every other cut gives a smaller size |
| Doubles.Number | src/utils/entries.ts:30 | the nearest double: exact below 2^53, never across 2^53, at most half a spacing away |
| Entries.TakeTransactions | src/utils/entries.ts:55-74 | the inner loop computes the scan of transactions and ends because the offset moves through the input |
| Entries.TakeEntry | src/utils/entries.ts:36-80 | one round reads one entry, or fails exactly when the 48 header bytes are not there |
| Entries.DeserializeEntries | src/utils/entries.ts:14-87 | the two nested loops compute the specified outcome, returned or thrown, for every input |
| EntriesProperties.EntriesRoundTrip | src/utils/entries.ts:14-87 | decoding the encoding of any well-formed entries followed by any bytes returns exactly those entries |
| EntriesProperties.TransactionsReprint | src/utils/entries.ts:55-73 | the transaction slices are consecutive and cover the bytes that the scan passed |
| EntriesProperties.ParseThenPrint | src/utils/entries.ts:35-81 | a returned result has the announced number of entries, and its headers and slices concatenate to the input up to the final offset |
| EntriesProperties.CompleteResultReprints | src/utils/entries.ts:35-81 | if every entry got its announced transactions, encoding the result prints the consumed bytes |
| EntriesProperties.WorkIsBounded | src/utils/entries.ts:30-74 | n entries with T transactions in all need 8 + 48 n + 101 T bytes of input, whatever the counts announce |
| EntriesProperties.RoundingIrrelevant | src/utils/entries.ts:30-50 | rounding the 64-bit counts to doubles never changes the outcome for inputs below 2^53 bytes |
| EntriesProperties.FaithfulScanIsStable | src/utils/entries.ts:35-81 | a faithful result is decoded the same from every buffer that begins with the consumed bytes |
| EntriesProperties.FaithfulIffEncoded | src/utils/entries.ts:14-87 | the input is decoded faithfully if and only if it begins with the encoding of well-formed entries |
| EntriesProperties.FaithfulIff | src/utils/entries.ts:58-68 | the executable check of the same: the announced counts are met, and the consumed bytes with three zeros decode to the same |
| EntriesProperties.CutShort | src/utils/entries.ts:58-68 | a 56-byte input that announces a transaction and ends is returned as an entry with none, although it begins with no encoding of entries |
| CutEntries.CutIsReturned | src/utils/entries.ts:53-81 | an encoding that lacks any number of bytes of its last transaction decodes to all its entries, the last transaction replaced by what the scan leaves of it |
| CutEntries.UnnoticedCut | src/utils/entries.ts:62-73 | if only content of the last vector is missing, the bytes that are there come back as the last transaction |
| EntriesProperties.ShortInput | src/utils/entries.ts:30-48 | an input below 8 bytes is rejected exactly when one of its bytes is not zero, and otherwise decodes to no entries |
| Positions.PositionManager.GetTotalExposure | src/services/position-manager.ts:329-332 | the loop adds up the costs of all positions, independent of their order |
| Positions.ExposureRemove | src/services/position-manager.ts:329-332 | the exposure is the cost of any one position plus the exposure of the others |
| Positions.RiskVerdict | src/services/position-manager.ts:96-199 | a buy is allowed exactly if reserve, position size, exposure and number of positions all stay within their limits; a sell exactly if something is held |
| Positions.PositionManager.CanTrade | src/services/position-manager.ts:96-199 | the checks, in order, give that verdict with the first failing reason |
| Positions.FirstBrokenIsNamed | src/services/position-manager.ts:96-199 | a refused buy is told the first limit that it breaks, in the order reserve, position size, exposure, number of positions |
| Positions.PositionManager.RecordBuy | src/services/position-manager.ts:204-256 | the whole new portfolio: a new position, or amount, cost, average price, trades and count of the old one |
| Positions.PositionManager.RecordSell | src/services/position-manager.ts:261-310 | the whole new portfolio and the realized profit, or nothing for an unknown token or more than is held |
| PositionLedger.BuyKeepsPriced | src/services/position-manager.ts:214-241 | after a buy every position still holds tokens at its average cost |
| PositionLedger.SellKeepsPriced | src/services/position-manager.ts:273-299 | after any sell every position still holds tokens at its average cost |
| PositionLedger.ProfitFormulasAgree | src/services/position-manager.ts:352-354 | in every reachable portfolio the profit percentage of src/services/exit-manager.ts:167 equals the unrealized profit percentage at every price |
| PositionLedger.BuyAddsExposure | src/services/position-manager.ts:214-246 | a recorded buy raises the exposure by exactly the amount spent |
| PositionLedger.SellMovesBasis | src/services/position-manager.ts:281-299 | an accepted sell lowers the exposure by exactly its cost basis |
| PositionLedger.Conservation | src/services/position-manager.ts:204-310 | over every run: money spent is exposure plus cost bases sold, and realized profit is received minus spent plus exposure |
| PositionLedger.SplitIndependent | src/services/position-manager.ts:281-289 | however a partial sale is split, amount, price and cost left are those of selling the sum at once |
| PositionHistory.SellsWhatIsHeld | src/services/position-manager.ts:273-299 | a sell of more than is held is refused and changes nothing; of all that is held it closes the position; of less it leaves the rest; other tokens are untouched |
| PositionHistory.BasisOfSells | src/services/position-manager.ts:281-289 | however a sale is split, the cost bases are together the entry price of the amount sold, up to and including all of it |
| PositionHistory.SellingAllCloses | src/services/position-manager.ts:281-299 | however all of a position is sold, it is gone and its whole cost has been taken out |
| PositionHistory.PositionIsItsHistory | src/services/position-manager.ts:204-310 | over every run of records: a token is held exactly if records of it were accepted since it was last sold off, and amount, trades and both counts are those of these records |
| CopyEngine.CopyTradeEngine.constructor | src/services/copy-trade-engine.ts:67-89 | a new engine is in the initial state of the machine |
| CopyEngine.CopyTradeEngine.DetectTrade | src/services/copy-trade-engine.ts:109-153 | from the call to the first await the object makes exactly the detection step |
| CopyEngine.CopyTradeEngine.OnFilterResult | src/services/copy-trade-engine.ts:154-171 | the object makes exactly the step for the filter's answer |
| CopyEngine.CopyTradeEngine.OnBalance | src/services/copy-trade-engine.ts:171-200 | risk check and admission are one step, with the verdict on the positions held at that moment |
| CopyEngine.CopyTradeEngine.OnSwapSettled | src/services/copy-trade-engine.ts:220-275 | the object makes exactly the settling step, with the success that turns into a failure when its amount is unreadable |
| CopyEngine.CopyTradeEngine.Record | src/services/copy-trade-engine.ts:236-258 | a buy is recorded at trade amount over tokens; a sell passes the outAmount as the tokens sold |
| CopyEngine.RecordedPositions | src/services/copy-trade-engine.ts:236-258 | recording keeps every position priced at its average cost |
| CopyEngineSafety.AdmissionCommits | src/services/copy-trade-engine.ts:171-200 | an admitted buy fits the limit beside the recorded cost, and joins the buys in flight |
| CopyEngineSafety.RecordedCost | src/services/copy-trade-engine.ts:236-258 | a recorded buy adds the trade amount to its scopes; a recorded sell adds nothing to any |
| CopyEngineSafety.SettleCommits | src/services/copy-trade-engine.ts:220-275 | settling never raises recorded cost plus cost in flight |
| CopyEngineSafety.CostBound | src/services/copy-trade-engine.ts:170-258 | over every interleaving with at most k buys in flight at once, recorded cost plus buys in flight are 0 or at most the limit plus k - 1 trade amounts - for the portfolio and for each token |
| CopyEngineSafety.CountBound | src/services/copy-trade-engine.ts:170-258 | over every interleaving with at most k buys in flight at once, the tokens held or on their way are none or at most the limit plus k - 1 |
| CopyEngineSafety.LimitsHoldWithoutOverlap | src/services/copy-trade-engine.ts:170-258 | if buys never overlap, all three configured limits hold in every reachable state |
| CopyEngineSafety.SettleEveryBuy | src/services/copy-trade-engine.ts:220-249 | some settlement of the buys in flight records the whole committed cost |
| CopyEngineSafety.SafeToSettleIff | src/services/copy-trade-engine.ts:170-258 | no settlement of the buys in flight can break the limit if and only if committed cost is within it |
| CopyEngineSafety.SafeToSettleCountIff | src/services/copy-trade-engine.ts:170-258 | no settlement of the buys in flight can break the limit on positions if and only if the tokens held or on their way are within it |
| CopyEngineOverlap.OverlapAttains | src/services/copy-trade-engine.ts:170-258 | any overlapping buys, each of which passes the limits by itself, all pass them, settle to one trade amount each, and leave every token among them held |
| CopyEngineOverlap.OverlapAttainsCount | src/services/copy-trade-engine.ts:170-258 | n overlapping buys of n different tokens, each of which passes by itself, end as n positions |
| CopyEngineLimits.ExposureHoldsIff | src/services/copy-trade-engine.ts:170-258 | the exposure limit holds in every run if and only if it is not negative and the configuration admits no first buy |
| CopyEngineLimits.PositionSizeHoldsIff | src/services/copy-trade-engine.ts:170-258 | the limit on the size of a position holds in every run on the same condition |
| CopyEngineLimits.CountHoldsIff | src/services/copy-trade-engine.ts:170-258 | the limit on positions holds in every run if and only if it is not negative, and no first buy is admitted or no more tokens are allowed than the limit |
| CopyEngineOverlap.OverlapAttainsExposure | src/services/copy-trade-engine.ts:170-200 | if one buy passes the limits, n overlapping buys all pass them and settle to n trade amounts, for every n |
| CopyEngineAccounting.AccountsAlwaysHold | src/services/copy-trade-engine.ts:109-275 | over every interleaving: detected = filtered + rejected + attempted + undecided, attempts = successes + failures + executing exactly if every sent copy could be recorded, and one terminal event for each ended trade |
| CopyEngineAccounting.FaultsAreUnrecorded | src/services/copy-trade-engine.ts:230-275 | the surplus in the counters is the number of sent copies whose amount could not be read |
| CopyEngineAccounting.CountedTwice | src/services/copy-trade-engine.ts:230-272 | a run with one attempt that is counted as a success and as a failure |
| CopyEngineOutcomes.CountersAreOutcomes | src/services/copy-trade-engine.ts:109-275 | over every interleaving, each of the six counters is the number of trades with the outcome it stands for - dropped, rejected, started, sent, failed - and the events are the announcements of these outcomes in their order |
| CopyEngineOutcomes.OneEndEach | src/services/copy-trade-engine.ts:109-275 | over every interleaving, a trade has come to exactly one outcome when it is over, and to none before |
| CopyEngineOutcomes.OnlyCopyableInProgress | src/services/copy-trade-engine.ts:121-142 | over every interleaving, every trade in progress is a buy where only buys are copied, of an allowed token and of at least the minimum size |
| CopyEngineOutcomes.DroppedIff | src/services/copy-trade-engine.ts:121-150 | in every reachable state, a detected trade is dropped at once if and only if it is not such a trade or a copy with its signature is pending |
| CopyEngineLedger.EngineRecords | src/services/copy-trade-engine.ts:236-258 | the portfolio after any run is that of the records which the settled copies made |
| CopyEngineLedger.EngineConserves | src/services/copy-trade-engine.ts:236-258 | so in every run money spent is exposure plus cost bases sold, realized profit is received minus spent plus exposure, and the two profit percentages agree for every position |
| CopyEngineOverlap.PendingAlwaysExecutes | src/services/copy-trade-engine.ts:198-275 | in every configuration each pending signature belongs to an executing copy |
| CopyEngineOverlap.NoDuplicatesIff | src/services/copy-trade-engine.ts:144-150 | pending signatures are exactly those of the executing copies, one copy each, in all runs if and only if there is neither filter nor position manager, or no buy fits the limits |
| CopyEngineOverlap.UnguardedRun | src/services/copy-trade-engine.ts:144-200 | without filter and position manager every run keeps one executing copy for each pending signature |
| CopyEngineOverlap.DuplicateRun | src/services/copy-trade-engine.ts:144-200 | in every other configuration that can execute, a run with two executing copies of one transaction |
| CopyEngineDuplicates.CopiesWithinDetections | src/services/copy-trade-engine.ts:109-275 | in every configuration and interleaving a transaction is copied at most as often as it was delivered |
| CopyEngineDuplicates.DeliveredOnceCopiedOnce | src/services/copy-trade-engine.ts:109-275 | if no transaction is delivered twice, none is copied twice, and the guard knows exactly the executing copies, in every configuration |
| CopyEngineDuplicates.CopiedAgain | src/services/copy-trade-engine.ts:144-275 | the bound is attained: a transaction delivered n times is copied n times, for every n, in every configuration that can execute |
| CopyEngineDuplicates.CopiedOnceIff | src/services/copy-trade-engine.ts:109-275 | transactions delivered at most d times each are never copied twice if and only if d is at most 1 or the configuration can execute nothing |
| CopyEngineDuplicates.NeverTwiceIff | src/services/copy-trade-engine.ts:144-275 | with deliveries left open, no transaction is ever copied twice if and only if the configuration can execute nothing |
| Exits.NextTarget | src/services/exit-manager.ts:186-188 | the first target from here on whose level is reached and not yet hit |
| Exits.ExitManager.ObservePrice | src/services/exit-manager.ts:143-170 | the object makes exactly the step from a price to the first await |
| Exits.ExitManager.CheckTakeProfits | src/services/exit-manager.ts:180-207 | the loop finds the next firing target and starts its sell, or goes on to the stop loss |
| Exits.ExitManager.ContinueCheck | src/services/exit-manager.ts:212-309 | stop loss, time limit and trailing stop, one step each |
| Exits.ExitManager.ExecuteSell | src/services/exit-manager.ts:312-333 | a sell is counted and announced before its await |
| Exits.ExitManager.OnSellSettled | src/services/exit-manager.ts:342-365 | the rest of executeSell after its await is exactly the step that reports the sell as executed or failed |
| Exits.ExitManager.CountExit | src/services/exit-manager.ts:202-204 | back in its caller, the exit counts as hit and a take-profit level is marked (lines 231, 264 and 305 for the other exits) |
| Exits.ExitManager.OnSellReturned | src/services/exit-manager.ts:192-207 | the object makes exactly the step from the return of executeSell to the next await |
| ExitHistory.HighWaterMarkIsMaximum | src/services/exit-manager.ts:151-164 | over every interleaving, the high-water mark is the largest price processed for the token |
| ExitHistory.HitsAreLevelsReached | src/services/exit-manager.ts:186-204 | over every interleaving, the hit levels are among the configured levels up to the running maximum of the observed profit, and are all of them whenever no check is taking profits |
| ExitHistory.FiresWithinPeak | src/services/exit-manager.ts:186-204 | a level fires for a token at most as often as checks of that token ever overlapped |
| ExitHistory.FiresOnce | src/services/exit-manager.ts:186-204 | without overlap a level fires exactly once if it is configured and reached, and otherwise never |
| ExitHistory.RepeatsIff | src/services/exit-manager.ts:186-204 | in any reachable state, a step that fires a level repeats an earlier fire if and only if a check is still selling for that level |
| ExitAccounting.OverlapFiresEach | src/services/exit-manager.ts:186-204 | the bound is attained: n overlapping checks that see the same profit all sell for the same level, for every n |
| ExitAccounting.ExitsAlwaysBalance | src/services/exit-manager.ts:192-365 | over every interleaving, exits triggered = hits + sells about to return to their caller + sells under way, and sells executed + sells failed = hits + sells about to return |
| ExitOutcomes.OutcomesDoNotMatter | src/services/exit-manager.ts:192-204 | had every sell of a run failed, hit levels, high-water marks and checks would be the same |
| ExitOutcomes.LevelAlwaysBalances | src/services/exit-manager.ts:186-204 | over every interleaving, each sell begun for a level is under way, was executed or has failed |
| ExitOutcomes.HitsExecutedIff | src/services/exit-manager.ts:192-204 | in all runs whose sells end with outcomes of a set, every level marked as hit has been executed, if and only if the set has no failure or the strategy no target |
| ExitOutcomes.FailedSellHits | src/services/exit-manager.ts:192-204 | a run whose only sell fails and whose level is hit all the same |
| ExitReopening.FreshCheckFiresIff | src/services/exit-manager.ts:45-188 | when no check of the token is taking profits, a new check begins to sell for a target exactly if its profit reaches a configured level that no earlier position of the token had reached |
| ExitReopening.ReopenedIsNotSold | src/services/exit-manager.ts:151-188 | a position sold for the only target and opened again reaches the target again, and nothing is sold for it |
| ExitAccounting.TrailingStopIff | src/services/exit-manager.ts:271-309 | at any point of any run the trailing stop fires exactly if it is set, the profit is at the activation level now, and the price is that far below the largest price ever processed |
| ExitCourse.StopLossOncePerCheck | src/services/exit-manager.ts:212-233 | a check that has ended sold for the stop loss exactly once if the profit it observed was at the level or below, and never otherwise |
| ExitAnswers.EveryExitAsDue | src/services/exit-manager.ts:212-307 | over every interleaving, a check begins each of the three full exits exactly when it is let go on before that exit and the exit is due then |
| ExitAnswers.TimeLimitOncePerCheck | src/services/exit-manager.ts:238-265 | a check that has ended sold for the time limit exactly once if a limit is set and the position had been held that long when the check came to it, and never otherwise |
| ExitAnswers.TrailingStopOncePerCheck | src/services/exit-manager.ts:271-306 | a check that has ended sold for the trailing stop exactly once if it is set, the profit was at the activation level, and the price was that far below the largest price processed until then |
| ExitKinds.EachKindBalances | src/services/exit-manager.ts:192-306 | over every interleaving, of each kind of exit: sells begun are exits counted as hit plus sells that have not yet returned |
| ExitSells.EachExitOnce | src/services/exit-manager.ts:180-307 | over every interleaving, a check begins to sell for each target and each full exit at most once, and only at a profit that allows it |
| ExitSells.FullSellsTwice | src/services/exit-manager.ts:212-307 | for every strategy in which two full exits can meet, a run in which one check begins to sell the whole position twice |
| ExitSells.FullSellsOnceIff | src/services/exit-manager.ts:212-307 | no check of any run begins to sell the whole position twice if and only if neither stop loss and time limit, nor time limit and trailing stop are both set, nor is the trailing stop activated at the stop loss or below |
| ExitPercents.AttemptedIs | src/services/exit-manager.ts:192-231 | what a check tries to sell in all is the percentages of the targets it fired plus 100 for each full exit |
| ExitPercents.OnlyFirstsFire | src/services/exit-manager.ts:186-204 | over every interleaving, of several targets with one level only the first is ever fired |
| ExitPercents.AttemptedWithin | src/services/exit-manager.ts:180-307 | over every interleaving, a check tries to sell at most the portions of the levels that its profit reaches, each level once, plus 100 for each full exit that the profit allows |
| ExitPercents.MostReached | src/services/exit-manager.ts:180-307 | the bound is attained: for every strategy and profit, a check that tries to sell that much |
| ExitPercents.AttemptedWithinIff | src/services/exit-manager.ts:180-307 | no check of any run tries to sell more than 100 percent if and only if the bound is at most 100 at two profits: the highest configured one and the stop loss |
| ExitPercents.ShippedAttempts | src/index.ts:71-75 | with the default strategy a check of some run tries to sell 275 percent of the position, and no check of any run tries to sell more |
| PriceUnits.QuotedProfitIff | src/services/exit-manager.ts:167 | computed from the quote of a whole token against a price of a smallest unit, the profit percentage is the true one if and only if the token has no decimals |
| PriceUnits.ObservedProfitIff | src/services/exit-manager.ts:143-167 | the same for every position of every run of records, against the unrealized profit of src/services/position-manager.ts:352-354 |
| PriceUnits.BreakEvenSeems | src/services/exit-manager.ts:143-167 | at break-even, a token with 6 decimals seems to have gained 99,999,900 percent |
| TxCache.JupiterExecutor.BuyToken | src/services/jupiter-executor.ts:595-608 | a buy takes the cached transaction of its token if it has not expired, and otherwise builds one |
| TxCache.JupiterExecutor.OnSendSettled | src/services/jupiter-executor.ts:607-641 | the token's entry is deleted, and a rebuild begins or the buy falls back |
| TxCache.JupiterExecutor.OnBuildSettled | src/services/jupiter-executor.ts:347-363 | a built transaction is stored with its expiry, replacing what is there |
| TxCache.JupiterExecutor.RefreshPreBuiltTransactions | src/services/jupiter-executor.ts:372-390 | the loop starts one build for each allowed token whose transaction is missing or close to expiry, in order |
| TxCache.ToRefresh | src/services/jupiter-executor.ts:377-385 | a token is refreshed exactly if it is allowed and its transaction is missing or has less than 15 seconds left |
| TxCacheReuse.PicksWithinPeak | src/services/jupiter-executor.ts:601-633 | under every interleaving a cached transaction is picked at most as often as buys of its token overlapped in sending; once if they never did |
| TxCacheReuse.PicksAreValid | src/services/jupiter-executor.ts:601-602 | every pick was of a transaction of its own token, strictly before its expiry, 45 seconds after it was built |
| TxCacheReuse.ReusesIff | src/services/jupiter-executor.ts:601-610 | a buy uses a transaction again if and only if another buy is still sending that very transaction |
| TxCacheReuse.OverlapReuses | src/services/jupiter-executor.ts:601-610 | the bound is attained: n overlapping buys all pick the same transaction, for every n |
| TxCacheSends.SentWithinPeak | src/services/jupiter-executor.ts:601-629 | under every interleaving a cached transaction is sent with success at most as often as buys of its token overlapped in sending |
| TxCacheSends.OverlapSendsEach | src/services/jupiter-executor.ts:601-629 | the bound is attained: n overlapping buys send one transaction n times, and each gets its result |
| TxCacheBuilds.SettledSendBegins | src/services/jupiter-executor.ts:606-634 | in every reachable state, a sent transaction begins exactly one build, under a new number, for token and amount of its buy, and a failed one none; both leave the token without an entry and the other entries as they were |
| TxCacheBuilds.BuildsAreOrdered | src/services/jupiter-executor.ts:340-392 | over every interleaving, for each token and amount: builds under way plus builds ended are those ordered directly, one for each sent cached transaction (line 613) and one for each refresh that the token needed |
| TxCacheBuilds.CacheIsLastBuild | src/services/jupiter-executor.ts:347-363 | over every interleaving, the entry of a token is its last successful build with its amount, time and expiry, unless a send of the token has ended since |
| TxCacheBuilds.BuySendsIff | src/services/jupiter-executor.ts:601-607 | in every reachable state, a buy sends a cached transaction if and only if that build is less than 45 seconds old |
| CopyEngineCache.SpentBeyondSignatures | src/services/copy-trade-engine.ts:206-249 | what the engine records as spent is one trade amount for each distinct signature, plus one for each further buy with the same signature |
| CopyEngineCache.SpentBeyondTransactions | src/services/copy-trade-engine.ts:206-249 | where the recorded buys are those that sent a cached transaction, the recorded cost is one trade amount for each transaction sent, plus one for each repeated send; no transaction is sent more often than its sends overlapped, and without overlap nothing is recorded in excess |
| CopyEngineCache.RecordedBeyondExecuted | src/services/copy-trade-engine.ts:206-249 | for every n, a run in which n overlapping buys send one transaction and the engine records n trade amounts |
| TxCacheReuse.MismatchedPick | src/services/jupiter-executor.ts:595-607 | for any two different amounts, a run that picks a transaction built for the first for a buy of the second |
| TxCacheReuse.AmountsMatchIff | src/services/jupiter-executor.ts:595-624 | runs that use only amounts of a set all pick transactions for the amounts they buy if and only if the set has at most one amount |
| TxCacheReuse.OneAmountMatches | src/services/jupiter-executor.ts:595-624 | if buys and builds all use one amount, cache, builds and picks hold no other |
| TxCacheReuse.RefreshCoversIff | src/services/jupiter-executor.ts:372-390 | after a refresh a token is being built for or stays usable until the next refresh, unless its transaction had between 15 and 30 seconds left |
| TxCacheReuse.RefreshLeavesGap | src/services/jupiter-executor.ts:372-390 | such a gap occurs: a transaction built at one refresh has exactly 15 seconds left at the next |
| Subscriptions.SubscriptionManager.constructor | src/api/subscription-manager.ts:26-31 | a new index represents the empty relation |
| Subscriptions.SubscriptionManager.Subscribe | src/api/subscription-manager.ts:36-55 | adds one pair to the relation; maps, tracked addresses and events follow, with an addition announced exactly if the address was not tracked |
| Subscriptions.SubscriptionManager.Unsubscribe | src/api/subscription-manager.ts:60-80 | removes one pair; a removal is announced exactly if the client was the only subscriber |
| Subscriptions.SubscriptionManager.RemoveClient | src/api/subscription-manager.ts:85-93 | removes exactly the client's pairs while the loop runs over the set that shrinks; each address that nobody else follows is announced once |
| Subscriptions.SubscriptionManager.HandleTrade | src/api/subscription-manager.ts:116-136 | each subscriber of the address is notified exactly once and nobody else |
| Subscriptions.SubscriptionManager.GetStats | src/api/subscription-manager.ts:138-149 | clients and addresses of the relation, and its number of pairs |
| Subscriptions.IndexAfterAdd | src/api/subscription-manager.ts:36-47 | the projections of the relation with one pair more |
| Subscriptions.IndexAfterDrop | src/api/subscription-manager.ts:60-79 | the projections of the relation with one pair less; no empty set remains |
| Subscriptions.FaithfulAdd | src/api/subscription-manager.ts:47-52 | an announced addition keeps the event stream faithful: its replay is the tracked set, and events of each address alternate beginning with an addition |
| Subscriptions.FaithfulRemove | src/api/subscription-manager.ts:64-68 | an announced removal keeps the event stream faithful |
| Subscriptions.ListenerTracks | src/index.ts:321-328 | a listener that begins with addresses of its own (line 282) tracks an address exactly if it is subscribed, or was its own and has never been announced as removed |
| Subscriptions.SubscriptionsAreCounted | src/api/subscription-manager.ts:138-149 | the subscriber counts over all addresses add up to the number of pairs |
| Decimals.PrintThenParse | src/services/trade-analyzer.ts:293 | parsing the printed form of any bigint gives it back |
| Decimals.UiStringIsExact | src/services/trade-analyzer.ts:358-370 | with decimals, the string denotes exactly the raw amount over the power of ten, sign included, and shows exactly that many fraction digits |
| Decimals.UiStringWithoutDecimals | src/services/trade-analyzer.ts:366-367 | without decimals all digits end up behind the point |
| Decimals.UiStringDenotesIff | src/services/trade-analyzer.ts:358-370 | the string denotes the amount it stands for if and only if the token has decimals or the amount is 0 |
| Decimals.FiveUnits | src/services/trade-analyzer.ts:366-367 | five units of a token without decimals are shown as 0.5 |
| Decimals.DeltaSignAndSize | src/services/trade-analyzer.ts:371-380 | the delta read back has the sign of the raw amount, and passes the filter exactly if the amount exceeds a millionth of a token |
| TokenDeltas.PreRecord | src/services/trade-analyzer.ts:331-337 | a record of the first pass sets the entry of its token |
| TokenDeltas.PostRecord | src/services/trade-analyzer.ts:340-350 | a record of the second pass adds to the entry of its token |
| TokenDeltas.HoldsIsEntries | src/services/trade-analyzer.ts:328-350 | after both passes the map is one entry for each token of the user, in the order of first appearance |
| TokenDeltas.ExtractTokenBalanceDeltas | src/services/trade-analyzer.ts:320-381 | the loops compute the kept deltas of those entries |
| TokenDeltas.RawDeltaIsGainIff | src/services/trade-analyzer.ts:331-337 | the raw delta is post minus pre if and only if no amount of the first pass is overwritten; otherwise it is larger |
| TokenDeltas.TwoAccountsEmptied | src/services/trade-analyzer.ts:331-337 | a user who empties two accounts of one token with 3 and 4 units seems to have lost 4 |
| TokenDeltas.OrderIsIrrelevant | src/services/trade-analyzer.ts:331-350 | with at most one earlier record of a token and uniform decimals, its entry is the sum of the later records minus the earlier one, in whatever order they come |
| TokenRecords.OthersAreIrrelevant | src/services/trade-analyzer.ts:331-341 | records of other owners change nothing |
| TokenRecords.SeenInOrder | src/services/trade-analyzer.ts:326-354 | the tokens of the entries stand in the order of their first records, each once |
| TokenRecords.DecimalsAreLastNamed | src/services/trade-analyzer.ts:340-350 | the decimals of an entry are those of the last record that names decimals, or else those known before |
| TradeDetection.ReportedTrade | src/services/trade-analyzer.ts:259-305 | a trade is reported exactly if USDC and another token moved; it is a sell exactly if USDC grew; the token is the first that moved, with its raw amount; the USDC amount is the raw amount divided as the decimal string divides it, which is exact if USDC shows decimals |

## Left out

- Networking, signing, base58, gRPC, WebSocket and HTTP calls: their results are arbitrary inputs.
- `decodeTransaction` and address-table resolution: they rest on libraries and on RPC results.
- The thresholds of the trade filter: its verdict is an arbitrary input.
- Rounding of doubles in money, prices and percentages: these are reals. Entry counts are the exception; their rounding is modelled.
- Bit operators: they are modelled on natural numbers, not on 32-bit patterns; on the patterns that the readers combine both agree.
- SolanaTx.MeasureTransactionSize: the branches for the two layouts are shared methods here, where the source writes the common part out twice.
- Positions.PositionManager.CanTrade: emits no warnings at 80 percent of a limit; the numbers that accompany a refusal are not returned.
- Positions.PositionManager.RecordBuy: keeps no symbol and no entry time, and takes the resulting amount to be other than 0; the source would divide by 0.
- Positions.PositionManager.RecordSell: returns the realized profit but not its percentage, which is undefined for a cost basis of 0. Changing limits at run time is not modelled.
- Position objects are values in a map; that a caller of `getPositions` holds live objects is not captured.
- CopyEngine.CopyTradeEngine.OnSwapSettled: bought amounts are positive, as an outAmount of 0 would be priced at infinity; latency statistics and listeners that throw are not modelled.
- The USDC reserve across interleavings: the balance is an external reading of the past, so only the check itself is modelled.
- Exits.ExitManager.ExecuteSell: does not compute the number of tokens to sell; `ExitPercents` is about the percentages, which are whole numbers as `BigInt` demands. Changing the strategy at run time and the count of rounds are not modelled.
- ExitPercents.AttemptedWithinIff: takes the targets' portions to be 0 percent or more; the source does not check this.
- Exits.ExitManager.ObservePrice: holds the exit state as a value in the map; the source's reference is to the same object, which is never replaced. Prices are positive or missing.
- TxCache.JupiterExecutor.OnSendSettled: ends where the on-demand path begins; quotes and the swap itself are not modelled.
- What happens on chain: a send that throws may have been broadcast before, and its buy is then built again on demand.
- CopyEngineCache.SpentBeyondTransactions: puts engine and cache together through the order of recorded buys and sent transactions, for runs in which every recorded buy used the cache. That a signature is executed once is a property of the chain.
- Subscriptions.SubscriptionManager.HandleTrade: notifies in an arbitrary order, where a JavaScript set has insertion order; the same holds for the loops of removing a client and of counting.
- TokenDeltas.ExtractTokenBalanceDeltas: takes amounts as numbers, where the source parses them from strings, and reads the decimal string back without rounding.
- Console output, printing of statistics, configuration and environment parsing: easy members only.
