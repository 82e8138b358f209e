# Verified model of the K2 lake

K2 archives three venues' market data from Kafka into an Iceberg lake and derives typed trades, order books, bars,
candles and dimensions from it. This project models the parts of that pipeline whose correctness rests on state or
arithmetic rather than on a library, and proves what the code, its comments and its design documents claim about them.

The modules follow the pipeline.

- **The archive.** `Offsets` is the offset arithmetic of one ingest run. `Ledger` is the protocol around it: a state
  machine over broker, table and processes in which records are produced and evicted, processes start, are refused the
  lock, plan, file a data loss, fetch, commit or crash, and maintenance adds and expires snapshots. `Ingest` is one
  run's ordered steps as the program performs them, proved to be a run of that machine. `Gaps` is the audit text and
  the cursor walk over recorded losses, `Audit` the nightly verdict, `ArchiveAudit` the theorem that the first always
  satisfies the second. `Drain` bounds a backlog.
- **The books.** `Ladders` says what the best levels of a side are; `LakeBook` and `CaptureBook` are the Python and the
  Rust book, each against it. `DepthWindow` is why a truncated local book stays the top of the venue's. `Replay` is the
  generator that walks a partition's frames, as a state machine and as the loop over mutable state that implements it;
  `Connection`, `Ticks`, `Partitions`, `Schedule`, `Sampling` and `Verification` are its laws, and `BookMeaning` says
  what its rows, verdicts and carried states hold without naming the functions that make them.
- **Decimals.** `Decimal` is the fixed-point parser with its `i64` bound, its Python twin, and the checksum digits.
- **Derived data.** `Trades`, `Bars`, `BarBounds`: event bars. `Gold`, `BarsParity`: candles and bars kept in step with
  the trades by recomputing what a batch touches; `RowMeaning` is what each candle and bar says of its trades. `Silver`, `Gapless`: replay and gap flags. `Positions`, `Bronze`: one
  position per source, and N tables that advance together. `Scd2`, `Timeline`, `Dimension`: version timelines; `AsOf`:
  what a lookup in one finds.
- **Tools.** `Statements` is the DDL splitter, `SampleGrid` the replay sampler's clock.

Code that updates state step by step is written as methods over mutable fields or loops, each proved against a
function or a predicate; the laws are lemmas about those. `Prelude`, `Digits` and `Sorting` are vocabulary. Lemmas carry
`{:induction false}`: a proof by induction is the recursive call in its body. `dafny verify dfyconfig.toml` checks the
whole project.

## Where the code and a claim part ways

Each of these is a lemma that gives the exact condition, usually with an input on which the claim fails.

- `offset_gaps` compares two counts, so a partition that misses as many offsets as it repeats passes
  (docker/lake/offsets.py:303-305). `Audit.CountIsBlind` gives such a partition and says when an unflagged one is
  intact; `Audit.NettingExact` is the exact statement for flagged ones.
- `checksum_digits` is documented as printing at the pair's precision without point and leading zeros. At zero units it
  prints `0` where the description prints nothing; it agrees exactly when the units are positive
  (`Decimal.DigitsAreThePrint`).
- The two books differ on a negative quantity: Rust removes the level, Python stores it (`CaptureBook.TwinsAgree`).
- `state_row()` needs a second to have been recorded. A partition raises exactly when some connection other than its
  last has no stored state, ends on a snapshot and has none before it (`Partitions.PartitionFactorises`), which loses
  the whole partition's output; `Partitions.RaisingPartition` is the smallest such partition.
- An interrupted SCD2 cycle is said to heal by treating the key as unseen. The key then reopens at EPOCH over its own
  history, so every time before the crash has two versions; and a key that was being delisted is never opened again
  (`Timeline.CrashHeals`, `Timeline.CrashedKey`).
- `bronze.stage` moves its position past frames whose writer schema could not be fetched when a neighbour in the range
  decoded, so "never skips" holds exactly when every frame of the stream in the range resolves
  (`Bronze.CommitExactIff`, and over all runs `Bronze.NeverDoubles`, where "never doubles" holds unconditionally); the
  parity line balances exactly when all do (`Bronze.BalancedIff`).
- Silver's flags need receive order across batches; out of order a trade gets two originals
  (`Silver.OutOfOrderTwoOriginals`) and a gap that never closes (`Gapless.LatePredecessorCounts`).
  `Silver.FlagsRightIff` and `Gapless.ColumnsRightIff` are the exact conditions.
- `attr_hash` is injective on the texts its comment describes; a text holding the separator, or spelling NULL, collides
  (`Scd2.PayloadCollides`).

## Model

| member | source | states |
|---|---|---|
| `Offsets.NextStartingOffsets` | docker/lake/offsets.py:89-115 | the loops build one start for every partition the broker has, committed or EARLIEST |
| `Offsets.NextStartIsCommitted` | docker/lake/offsets.py:89-115 | a committed offset is the next start verbatim; a partition never read starts at EARLIEST; none is left to Spark |
| `Offsets.BoundPartition` | docker/lake/offsets.py:159-185 | start, end and what is left of one partition under the broker's range, the instant and the cap |
| `Offsets.BoundedOffsets` | docker/lake/offsets.py:118-185 | the nested loops give starts and ends for every partition, and for every topic a backlog that is the number of its records from the ends to the ends of the log |
| `Offsets.NothingUnreadIff` | docker/lake/offsets.py:184 | that number is zero exactly when every partition is read to the end of its log |
| `Offsets.UnreadIsTakenAndLeft` | docker/lake/offsets.py:118-185 | what was unread is, record by record, what the run takes and what its backlog counts, and nothing is both |
| `Offsets.EndIsBounded` | docker/lake/offsets.py:118-185 | for every broker answer an end lies between the start and the larger of start and latest, never past the cap or the instant, and short of the log end only where one of them stops it; the sentinels resolve before anything is added |
| `Offsets.Evicted` | docker/lake/offsets.py:188-217 | names every partition whose start is below the log start, once, with its exact range, and no other |
| `Offsets.SkipEvicted` | docker/lake/offsets.py:220-244 | moving the named partitions is raising every start to the log start: healthy ones do not move |
| `Offsets.RepairHeals` | docker/lake/offsets.py:220-244 | after the repair nothing is evicted, and no start moved that did not have to |
| `Offsets.MergeCommitted` | docker/lake/offsets.py:247-258 | the update loop computes the merge |
| `Offsets.MergeCarriesForward` | docker/lake/offsets.py:247-258 | a quiet partition keeps its offset, a produced one takes the new one, none is dropped |
| `Offsets.LatestAfterCommit` | docker/lake/offsets.py:261-277 | a commit of the job becomes its newest summary; a maintenance commit hides nothing |
| `Offsets.LatestAfterExpiry` | docker/lake/offsets.py:261-277 | expiring any snapshot but the job's newest leaves the resume point where it was |
| `Ledger.StepKeepsInv` | docker/lake/ingest.py:155-397 | every step of broker, process, crash, loss filing, commit and maintenance keeps the archive invariant |
| `Ledger.ExactlyOnce` | docker/lake/ingest.py:155-397 | in every reachable state an offset is archived once if it lies in `[origin, committed)` and is not a recorded loss, else not at all |
| `Ledger.OneWriter` | docker/lake/lock.py:20-31 | in every reachable state at most one process runs, and it holds the lock |
| `Ledger.FiledIsRecorded` | docker/lake/ingest.py:361-379 | filing losses makes exactly their offsets recorded gaps |
| `Ledger.PlannedRange` | docker/lake/ingest.py:155-185 | a planned range starts where the last commit ended, or at the log start of a partition never read |
| `Ingest.TwoWritersDuplicate` | docker/lake/ingest.py:499-507 | from any state between runs, two processes that do not ask for the lock run through to two commits of the same range: each of its records gains two rows while the committed offsets are those of one commit; with the lock that run is not legal |
| `Ingest.Lake.AcceptDataLoss` | docker/lake/ingest.py:338-397 | the loss is filed before the starts move; a filing that does not land stops the run with nothing else changed |
| `Ingest.Lake.ReadAndCommit` | docker/lake/ingest.py:214-335 | an empty range, a failed read and a range that yields no record each change nothing and are told apart; otherwise exactly the planned range and its offsets land in one commit |
| `Ingest.Lake.StagePastLosses` | docker/lake/ingest.py:185-205 | evicted ranges refuse the run naming each; accepted but unfiled they stop it unchanged; filed, it reads on from the log starts |
| `Ingest.Lake.StageRaw` | docker/lake/ingest.py:155-335 | for every broker state and flag the outcome and the new archive are the ones its branch calls for, down to the exact range committed, and the steps are a legal run of the ledger that keeps its invariant |
| `Gaps.LossRowRoundTrips` | docker/lake/ingest.py:361-379 | the text a data loss is filed with parses back to exactly the range lost |
| `Gaps.RecordedGaps` | docker/lake/offsets.py:338-358 | one range per row that parses, in order |
| `Gaps.Walk` | docker/lake/offsets.py:361-400 | the cursor over sorted ranges stops at the least offset from the first on that none contains |
| `Gaps.UncoveredHoles` | docker/lake/offsets.py:361-400 | keeps exactly the holes the recorded ranges of their partition do not cover together |
| `Audit.OffsetGaps` | docker/lake/offsets.py:280-335 | a failure for each partition whose span and count differ, signed by direction |
| `Audit.HolesAccount` | docker/lake/maintenance.py:315-374 | the holes miss as many offsets as the span lacks, plus one for every repeated row |
| `Audit.HolesAreMissing` | docker/lake/maintenance.py:315-374 | an offset lies in a hole exactly when it is inside the span and no row carries it |
| `Audit.NettingExact` | docker/lake/maintenance.py:315-374 | for a partition with a shortfall the netting passes if and only if no offset repeats and every missing one is in a recorded loss |
| `Audit.NetRecorded` | docker/lake/maintenance.py:315-374 | the branches decide that netting |
| `Audit.AuditOffsetContinuity` | docker/lake/maintenance.py:271-312 | everything reported passes if and only if every partition does, and each one that does not is named |
| `Audit.CountIsBlind` | docker/lake/offsets.py:303-305 | an unflagged partition is intact exactly when nothing repeats; one that repeats and misses alike passes |
| `ArchiveAudit.LedgerPassesAudit` | docker/lake/maintenance.py:271-374 | whatever the ledger reaches, every partition of the table is intact and the audit passes it |
| `Drain.LagIsDistance` | docker/lake/offsets.py:159-185 | one bounded run changes the lag alike wherever the log stands |
| `Drain.BacklogDrains` | docker/lake/ingest.py:110-138 | arrivals below the cap leave at most `max(0, lag - n(m - a))` after n runs |
| `Drain.BacklogGrows` | docker/lake/ingest.py:110-138 | a cap at or below the arrivals never catches up |
| `Drain.ReportedBacklogDrains` | docker/lake/ingest.py:110-138 | the backlog the last of n runs reports for a topic is at most the sum of `max(0, lag - n(m - a))` over its partitions, and zero once every lag is taken off |
| `Ladders.BestKeysMean` | docker/lake/book.py:80-98 | the best n prices: as many as there are, in strict order, everything left out worse |
| `Ladders.LastWins` | docker/lake/book.py:73-78 | after absolute updates a price holds its last quantity, or nothing when that was zero |
| `LakeBook.Book.Apply` | docker/lake/book.py:73-78 | sets or removes one level of one side |
| `LakeBook.Book.Truncate` | docker/lake/book.py:80-92 | sorting and deleting the worst leaves exactly the best `depth` levels a side |
| `LakeBook.Book.Top` | docker/lake/book.py:94-98 | the best n levels, best first |
| `LakeBook.KrakenApply` | docker/lake/book.py:104-112 | a snapshot replaces, an update folds, then the depth is restored |
| `CaptureBook.Book.Apply` | services/capture-rust/src/book.rs:68-88 | a quantity of zero or less removes, any other replaces |
| `CaptureBook.Book.Truncate` | services/capture-rust/src/book.rs:91-98 | popping the worst until the depth is met leaves the same best levels the sort keeps |
| `CaptureBook.Book.TopOf` | services/capture-rust/src/book.rs:119-132 | walking the map yields the same best levels as parallel arrays |
| `CaptureBook.TwinsAgree` | services/capture-rust/src/book.rs:68-88 | the two books agree on an update exactly when its quantity is not negative |
| `DepthWindow.WindowTracks` | docker/lake/book.py:80-112 | if the venue reports what changed in its window, apply-then-truncate keeps the local side the venue's window |
| `DepthWindow.LocalIsWindow` | docker/lake/book.py:80-112 | after every frame of every such feed the local book is the top `depth` of the venue's full book |
| `DepthWindow.SameTop` | docker/lake/book.py:52-60 | so the levels a checksum walks are the venue's, for any count within the depth |
| `DepthWindow.StaleLevelReturns` | docker/lake/book.py:80-92 | without truncation a level that drifted out comes back and the book is wrong |
| `Decimal.ParseFixed` | services/capture-rust/src/decimal.rs:65-121 | succeeds if and only if the text is in the grammar and its value times 1e8 fits `i64`, and is then exact; otherwise the error is that of the first character that will not do, of a final point, or of a value out of range |
| `Decimal.StopsOnce` | services/capture-rust/src/decimal.rs:65-118 | a rejected text has one first offending character and one reason |
| `Decimal.UnitsExact` | services/capture-rust/src/decimal.rs:65-121 | units over 1e8 and the digits over their power of ten are one fraction |
| `Decimal.EarlyOverflow` | services/capture-rust/src/decimal.rs:65-121 | what the loop has accumulated never exceeds the result, so an intermediate overflow is a real one |
| `Decimal.PrintParses` | services/capture-rust/src/decimal.rs:200-206 | printing then parsing is the identity on every non-negative value |
| `Decimal.FixedAgrees` | docker/lake/book.py:31-40 | the Python parser returns the same units on every text the Rust one accepts |
| `Decimal.DigitsAreThePrint` | services/capture-rust/src/decimal.rs:123-141 | integer division gives the digits of the print without point and leading zeros if and only if the units are positive |
| `Replay.FlushSeconds` | docker/lake/books.py:227-236 | the loop emits the rows of every whole second due and leaves the cursor on the last |
| `Replay.AbsorbFrame` | docker/lake/books.py:261-289 | one frame's effect on book, stamp and verdict, per venue and before the first snapshot |
| `Replay.BeginConnection` | docker/lake/books.py:242-256 | a connection starts from its carried state or from nothing |
| `Replay.ReplayPartition` | docker/lake/books.py:191-299 | the generator over the mutable book yields, and raises, exactly as the state machine does |
| `Connection.StepSound` | docker/lake/books.py:227-289 | what holds of a connection between frames, and where each frame moves its next second |
| `Connection.CarryKeepsBook` | docker/lake/books.py:215-225 | the carried book is the book if and only if neither side exceeds the row's levels |
| `Connection.ResumeIsAlike` | docker/lake/books.py:182-188 | reading back what a live connection left resumes a machine no later frame can tell apart |
| `Ticks.ReplayIsRun` | docker/lake/books.py:191-299 | a partition of one connection never raises, and yields its run and one carry-over if live |
| `Ticks.TickEffect` | docker/lake/books.py:390-441 | what one tick publishes and stores |
| `Ticks.TickSplit` | docker/lake/books.py:182-299 | frames cut in two ticks with the state carried between publish the same rows and verdicts and store the same state as one replay |
| `Ticks.TicksAreOne` | docker/lake/books.py:182-299 | the same for any number of ticks of one connection |
| `Ticks.KrakenFits` | docker/lake/books.py:215-225 | a Kraken book never outgrows its carry-over row, so for Kraken the size condition always holds |
| `Partitions.PartitionFactorises` | docker/lake/books.py:238-299 | a partition is its connections replayed alone, end to end; it raises if and only if one but the last, with no stored state, has its only snapshot as its last frame |
| `Partitions.RaisingPartition` | docker/lake/books.py:238-256 | two connections of one snapshot each raise |
| `Schedule.TickStores` | docker/lake/books.py:390-441 | a tick over any number of connections publishes each one's own rows and stores its own state, nothing else at its key |
| `Schedule.ManyTicksAreOne` | docker/lake/books.py:182-441 | however the frames of any number of connections are cut into ticks that do not raise, each connection's rows and its stored state are those of one replay of its own frames |
| `Sampling.FlushedSeconds` | docker/lake/books.py:227-236 | a flush is one row for every whole second of its stretch |
| `Sampling.LiveSampling` | docker/lake/books.py:227-259 | from going live, one row per second up to the latest a frame fell in, none missing, none twice, each decided by the frames before its end |
| `Sampling.FreshSampling` | docker/lake/books.py:227-299 | a connection that opens with a snapshot samples from that frame's own second; earlier frames leave no trace |
| `Sampling.ResumedSampling` | docker/lake/books.py:242-259 | a resumed connection goes on with the second it owed |
| `Sampling.MonotoneHoldsAll` | docker/lake/books.py:227-259 | when receive times do not go back a row of a fresh connection holds exactly the frames from its opening snapshot on that were received before its second ended |
| `Sampling.NoLookahead` | notebooks/k2lake.py:140-149 | a book row paired at `second + 1s` uses no frame received at or after the trade, the opening snapshot included |
| `Sampling.NoLookaheadResumed` | notebooks/k2lake.py:140-149 | the same for a connection resumed from stored state, of the frames of this run |
| `BookMeaning.RowSays` | docker/lake/books.py:202-213 | every row of a fresh connection: the twenty best bids falling and asks rising with their quantities, the longer side as depth, the times, place, sequence and verdict of the last frame received before its second was over |
| `BookMeaning.ResumedRowSays` | docker/lake/books.py:202-259 | the same for a resumed connection, whose stored state stands in before its first frame |
| `BookMeaning.HonestRowSays` | docker/lake/books.py:202-276 | on a faithful Kraken feed those are the twenty best levels of the venue's own book, side by side |
| `BookMeaning.CarrySays` | docker/lake/books.py:215-225 | the carried state: every level the row has room for and the last frame's stamp |
| `BookMeaning.CoinbaseHolds` | docker/lake/books.py:277-286 | a Coinbase book holds, side by side, the last quantity each price was given since the last snapshot, and no other price |
| `BookMeaning.FrameIsJudged` | docker/lake/books.py:258-276 | a Kraken frame's verdict: none before the first snapshot or for an unknown pair, else whether its checksum is that of the ten best asks, then bids, of the book it leaves |
| `BookMeaning.TextIsSpelled` | docker/lake/book.py:52-59 | the checksum text: asks before bids, each price at one precision and then its quantity at the other |
| `BookMeaning.OneLevelText` | docker/lake/book.py:52-59 | and for one level a side, its four digit strings |
| `Verification.HonestFeedVerifies` | docker/lake/books.py:265-276 | every frame of a faithful Kraken feed is judged correct: neither truncation nor replay costs a checksum |
| `Trades.TradeOrder` | docker/lake/gold.py:29-35 | the order candles and bars share is total; `RowMeaning` says which it is |
| `Trades.WhereSort` | docker/lake/bars.py:114-115 | sorting a partition alone is the partition of the sorted whole |
| `Trades.FoldSummarises` | docker/lake/bars.py:126-135 | the streaming row is the aggregate: endpoints, extremes, exact totals; there is one exactly when there is a trade |
| `Trades.FoldIff` | docker/lake/bars.py:126-135 | and no other row is: the aggregate determines it |
| `Bars.Reference` | docker/lake/bars.py:172-216 | the two-dictionary pass returns exactly the non-empty buckets of the cumulative definition, in key order |
| `Bars.PermutationInvariant` | docker/lake/bars.py:5-21 | trades with distinct order keys give the same rows however they are permuted |
| `Bars.BarsConserve` | docker/lake/bars.py:172-216 | trade count, volume and notional of a day are conserved by its bars, whatever they are cut by |
| `BarBounds.BucketIsStretch` | docker/lake/bars.py:5-12 | a bar is a contiguous stretch of its day between two cumulative cuts |
| `BarBounds.BarBounds` | docker/lake/bars.py:5-12 | once a later bar exists bars 0..k total at least `(k+1)T` and less than that plus the crossing trade |
| `BarBounds.TickBarsExact` | docker/lake/bars.py:5-12 | a tick bar other than the day's last holds exactly its threshold |
| `BarBounds.LateTradeIsLocal` | docker/lake/gold.py:396-398 | a late trade leaves every bar below its own `bar_seq`, and every other day and symbol, unchanged |
| `BarBounds.LateTradeBucket` | docker/lake/gold.py:396-398 | and its own `bar_seq` is the one its place in the day gives it |
| `RowMeaning.CandleSays` | docker/lake/gold.py:321-341 | a candle is there exactly when its stretch of seconds holds a trade of its venue and symbol; it opens and closes at the trades no other precedes or follows by (exchange time, receive time, id), and its extremes, counts and sums are theirs |
| `RowMeaning.TablesSay` | docker/lake/gold.py:426-465 | so says every candle stored at a minute, five, an hour and a day |
| `RowMeaning.BarSays` | docker/lake/bars.py:172-216 | a bar says the same of the day's trades that the units of those before them, in that written-out order, put in its bucket |
| `RowMeaning.StoredBarSays` | docker/lake/gold.py:368-423 | so says every stored bar, cut at the threshold of its symbol and kind |
| `RowMeaning.BucketByUnitsBefore` | docker/lake/bars.py:5-21 | without ties a trade is in bucket s exactly when the units of all trades of the day before it come to s |
| `RowMeaning.RowsAscend` | docker/lake/bars.py:172-216 | bars come out by exchange, symbol, day and bucket, each ascending |
| `Gold.FloorsNest` | docker/lake/gold.py:185-186 | flooring to the minute and then to a multiple of it is flooring once |
| `Gold.MinuteDecides` | docker/lake/gold.py:349-352 | a trade's window in every timeframe and its day follow from its minute |
| `Gold.MergeKeepsCandles` | docker/lake/gold.py:344-365 | merging the touched windows makes them right over all trades and keeps every other |
| `Gold.ReplaceKeepsBars` | docker/lake/gold.py:393-423 | deleting and appending the touched days does the same for bars |
| `Gold.CrashAgesBars` | docker/lake/gold.py:411-416 | at each crash point only the touched days are behind |
| `Gold.Tables.StageOhlcv` | docker/lake/gold.py:344-365 | the loop recomputes and merges each timeframe |
| `Gold.Tables.StageBars` | docker/lake/gold.py:393-423 | two commits, or none when no day is touched |
| `Gold.Tables.Stage` | docker/lake/gold.py:426-432 | after an uninterrupted run every candle and bar not stale before, and all the batch touched, is the one recomputed over all trades |
| `Gold.Tables.StageTo` | docker/lake/gold.py:426-432 | stopped after any of its commits (the trades, each timeframe, the bars' delete, the end) the timeframes reached are healed and only the touched windows of the others, and the touched days, are behind |
| `Gold.Tables.Rebuild` | docker/lake/gold.py:444-465 | the rebuild loop leaves every timeframe and the bars recomputed over every window and day the trades fall in |
| `Gold.RebuiltIsFresh` | docker/lake/gold.py:435-465 | listing the windows and days present misses none: every row a rebuild should have it has, and no other |
| `Gold.FreshIsRebuilt` | docker/lake/gold.py:444-465 | a table with nothing stale is the rebuilt one, whatever order the rebuild met the trades in |
| `Gold.Tables.NothingStaleIsRebuilt` | docker/lake/gold.py:426-465 | the tables that uninterrupted runs of `Stage` leave are, in every timeframe and in the bars, the ones `Rebuild` leaves |
| `Gold.NothingStaysStale` | docker/lake/gold.py:426-432 | a run over tables with nothing behind leaves nothing behind |
| `Gold.IncrementalIsRebuild` | docker/lake/gold.py:426-465 | any batches run incrementally from empty tables leave row for row what one rebuild of the same trades in any order leaves |
| `Gold.CandlePermutation` | docker/lake/gold.py:29-35 | a candle does not depend on arrival order |
| `BarsParity.ParityIff` | docker/lake/bars.py:148-169 | the nightly comparison finds nothing exactly when every bar of the day is there and right, and no other is |
| `BarsParity.NothingFoundIsEqual` | docker/lake/bars.py:140-169 | and then each of the seven columns is equal |
| `BarsParity.DifferenceIsFound` | docker/lake/bars.py:140-169 | a difference in any one of them is found |
| `BarsParity.HalfAppliedIsFound` | docker/lake/gold.py:411-416 | a day deleted and not appended is reported, every missing bar by key |
| `BarsParity.FreshPasses` | docker/lake/maintenance.py:594-617 | a day that is not stale passes |
| `Silver.Table.Write` | docker/lake/silver.py:226-244 | a batch is scored against the lookback and appended; stored flags never change; what they say is `Gapless.WrittenMeans` |
| `Silver.SeenIsVisible` | docker/lake/silver.py:222-233 | what a scoring sees is its batch and what was stored no more than a day before its first delivery |
| `Silver.FlagsRightIff` | docker/lake/silver.py:184-233 | over all runs the stored `venue_replay` is that of one scoring of the whole archive if and only if every re-delivery is scored where an earlier one is visible; the gap columns are `Gapless.ColumnsRightIff` |
| `Silver.OneOriginal` | docker/lake/gold.py:13-18 | then each trade has exactly one original row, its first delivery |
| `Silver.PromptIsSeen` | docker/lake/silver.py:23-29 | receive-ordered batches whose re-deliveries come within a day meet that condition |
| `Silver.OutOfOrderTwoOriginals` | docker/lake/silver.py:184-200 | out of receive order a trade gets two originals |
| `Gapless.MissingTelescopes` | docker/lake/silver.py:200-212 | ids and their predecessors: the gaps sum to the ids between least and greatest that nobody carries |
| `Gapless.ScoredSetTelescopes` | docker/lake/silver.py:200-219 | over rows scored together the column `missing_before` of one symbol sums to `max - min + 1` less the number of distinct ids delivered |
| `Gapless.ScoreAgreesIff` | docker/lake/silver.py:184-233 | scored beside part of the archive all three columns are the whole archive's exactly when that part holds an earlier delivery of a re-delivered trade, or the trade just before an original |
| `Gapless.ColumnsRightIff` | docker/lake/silver.py:184-244 | over all runs the stored `venue_replay`, `seq_gap` and `missing_before` are those of one scoring of the archive if and only if batch plus lookback always shows that much |
| `Gapless.StoredTelescopes` | docker/lake/silver.py:200-219 | and then the stored column sums to the ids of the range nobody delivered |
| `Gapless.LatePredecessorCounts` | docker/lake/silver.py:23-29 | a trade delivered after its successor was scored stays counted missing in the successor's row |
| `Gapless.WrittenMeans` | docker/lake/silver.py:184-244 | every row a write adds, column by column: a replay has an earlier delivery by the written-out order; `seq_gap` is NULL without a smaller id, true when the id below was not delivered, false when it was; `missing_before` is how many ids just below were not |
| `Gapless.StoredMeans` | docker/lake/silver.py:184-244 | the same for every stored row over the whole archive, where every batch saw enough |
| `Gapless.FlatIndexUnique` | docker/lake/silver.py:130-135 | Coinbase's `src_index` is the trade's place in the frame as sent, in order, shared by no two |
| `Positions.StageCompletes` | docker/lake/gold.py:166-197 | one venue's commit completes that venue and moves no other's position or rows |
| `Positions.AlwaysComplete` | docker/lake/gold.py:158-198 | in every reachable state, crashes between venues included, gold holds each venue's originals exactly up to its position, once, in order |
| `Positions.GoldTrades.StageTrades` | docker/lake/gold.py:158-198 | the loop, stopped after any venue, is that many commits |
| `Positions.StagedPositions` | docker/lake/gold.py:158-198 | venues passed are complete, the others where they were |
| `Positions.GoldOncePerTrade` | docker/lake/gold.py:13-18 | with right flags gold holds exactly one row for each trade delivered |
| `Bronze.Venue.Stage` | docker/lake/bronze.py:392-425 | refuses exactly when the tables stand apart, does nothing when level or nothing decodes, else commits table by table |
| `Bronze.Venue.DecodeRange` | docker/lake/bronze.py:298-375 | the loop over tables, its counts and the parity verdict, stopped anywhere; run to the end, what it leaves unaccounted for is the number of frames passed over for their schema |
| `Bronze.CommitExactIff` | docker/lake/bronze.py:322-338 | a table stays exact through a commit if and only if every frame of its stream in the range resolves |
| `Bronze.NeverDoubles` | docker/lake/bronze.py:298-425 | in every state reachable by runs with any failing schemas, any crash point, raw commits and maintenance, no table holds a frame twice, and a table is exact if and only if every frame of its stream resolved at the commit that took its range |
| `Bronze.CrashSplitsPositions` | docker/lake/bronze.py:401-414 | after a crash between two tables the next run refuses |
| `Bronze.EveryFrameOnce` | docker/lake/bronze.py:340-354 | every decodable frame is in one table or is a control frame |
| `Bronze.BalancedIff` | docker/lake/bronze.py:340-372 | the parity line balances if and only if no frame of the range was passed over for its schema |
| `Scd2.PayloadInjective` | docker/lake/scd2.py:80-93 | rows serialise alike if and only if every tracked attribute is equal |
| `Scd2.HashSeesTracked` | docker/lake/scd2.py:80-93 | one hash comparison stands for the column-by-column one, barring a collision of these two |
| `Scd2.PayloadCollides` | docker/lake/scd2.py:62-65 | a text with the separator, or spelling NULL, passes for another row |
| `Scd2.PayloadText` | docker/lake/scd2.py:62-93 | the payload spelt out: tracked order, unit separator, NULL as a zero character, Python's booleans |
| `Scd2.Plan` | docker/lake/scd2.py:96-150 | the two loops close each key once and open one version for exactly the changed, new and gone keys; what those versions say is `AsOf` |
| `Timeline.RunTiles` | docker/lake/gold.py:230-258 | a later cycle keeps a tiled timeline tiled |
| `Timeline.TimelineTiles` | docker/lake/gold.py:230-258 | uninterrupted cycles at increasing times keep every key tiling `[EPOCH, FOREVER)` with only its last version open |
| `Timeline.AsOfUnique` | docker/lake/scd2.py:37-44 | on a tiled timeline an as-of lookup finds exactly one version, by range or by `valid_from` alone |
| `Timeline.RerunPlansNothing` | docker/lake/scd2.py:16-17 | an unchanged registry plans nothing, for listed and for delisted keys |
| `Timeline.DelistedOnce` | docker/lake/scd2.py:18-23 | a delisting adds one row however many cycles follow |
| `Timeline.NeverTwoOpen` | docker/lake/gold.py:234-241 | whatever crashes between the commits, a key never has two open versions |
| `Timeline.CrashHeals` | docker/lake/gold.py:234-241 | the next cycle tiles a key again if and only if the crashed one had not closed it |
| `Timeline.CrashedKey` | docker/lake/gold.py:234-241 | a closed key still listed overlaps itself on every time before the crash; one no longer listed is never opened again |
| `AsOf.VersionsAreOwn` | docker/lake/scd2.py:116-150 | whatever crashed, a stored version hashes its own attributes, which the registry listed or listed before a delisting, and is dated by the cycle that recorded it |
| `AsOf.CycleOpens` | docker/lake/scd2.py:116-150 | after an uninterrupted cycle a listed key's open version has the registry's tracked attributes, all of its attributes if just opened; a key no longer listed keeps its fields, not subscribed |
| `AsOf.OpenIsRegistry` | docker/lake/scd2.py:16-23 | after any number of such cycles the open version says what the registry last said |
| `AsOf.AsOfIsRegistry` | docker/lake/scd2.py:37-61 | an as-of lookup at t finds the attributes the registry had last said by t |
| `AsOf.AsOfUnlisted` | docker/lake/scd2.py:46-58 | before the first listing it finds what that listing said |
| `AsOf.AllOfTime` | docker/lake/scd2.py:37-58 | versions run from 1970-01-01 to 9999-12-31 23:59:59 |
| `Dimension.Dim.OpenVersions` | docker/lake/gold.py:243-246 | the dictionary over current rows holds each key's open version |
| `Dimension.Dim.MergeDim` | docker/lake/gold.py:230-258 | every key's history moves as the per-key cycle says, through one commit or both |
| `Statements.SplitStatements` | docker/lake/apply_ddl.py:45-69 | the look-ahead escape machine splits at the semicolons with an even number of quotes before them |
| `Statements.PiecesMean` | docker/lake/apply_ddl.py:45-69 | the pieces are the text cut at exactly those semicolons |
| `Statements.PiecesOfJoin` | docker/lake/apply_ddl.py:45-69 | and there is no other way to cut it so |
| `Statements.RoundTrip` | docker/lake/apply_ddl.py:27-69 | trimmed, balanced statements joined with `;` into text without comment lines split back into themselves |
| `Statements.CommentIff` | docker/lake/apply_ddl.py:42-44 | a line is dropped exactly when it is white space and then two hyphens |
| `Statements.CommentsSayNothing` | docker/lake/apply_ddl.py:42-69 | such a line set between any lines adds no statement and splits none |
| `Statements.OthersStay` | docker/lake/apply_ddl.py:42-44 | text without one is left alone |
| `SampleGrid.Sample` | services/capture-rust/src/replay.rs:114-138 | a sample fires exactly at frames that enter a cell beyond all earlier ones, and the next due time is the first grid line past every frame |
| `SampleGrid.DueIsAhead` | services/capture-rust/src/replay.rs:114-120 | due times stay on the grid, later than every frame seen, by at most one interval |
| `SampleGrid.OneSamplePerCell` | services/capture-rust/src/replay.rs:114-120 | samples follow one another into strictly later cells |
| `SampleGrid.SampledIff` | services/capture-rust/src/replay.rs:114-138 | a frame triggers a sample exactly when it is in a later cell than every frame before it |

## Left out

- Spark, Iceberg, Kafka, Avro and the schema registry: only their effects as atomic steps (a commit of rows and summary,
  a range read, an offset listing); no concurrent committer other than the modelled ones.
- CRC32 and SHA-256 are function parameters. `Scd2.HashSeesTracked` asks only that the hash not collide on the two rows
  compared.
- `encode`/`decode` of offsets and the JSON of frames: values, not texts. The text of a filed data loss is modelled
  character by character, because the audit parses it.
- Clocks: run timestamps are parameters; `ingest_ts`, `updated_at` and `computed_at` columns are not modelled.
- The value of `max_kafka_ts`: a metric. That it is missing when a range yields no record is the read outcome
  `YieldsNothing`.
- `Gaps.RecordedGaps`: text in ASCII digits; Python's `isdigit` and `\d` also accept other digit characters, on some of
  which `int` raises rather than skipping the row. `LossRow` never writes one.
- `Gaps.LossRowRoundTrips`: the wording of a filed text beyond what the parse reads back, its count of lost records and
  its application id among it, is prose for an operator.
- Topic recreation and expiry of the newest ingest snapshot: the ledger has neither step, as the design requires.
- `books.process` makes several commits per tick: `Ticks.TicksAreOne` and `Schedule.ManyTicksAreOne` are about ticks
  that ran to their end.
- `Ticks.TickSplit`, and with it `Ticks.TicksAreOne` and `Schedule.ManyTicksAreOne`: requires the carried book to fit
  the row's 10^6 levels a side, which is the row's own limit; `Connection.CarryKeepsBook` says what is lost beyond it and
  `Ticks.KrakenFits` that Kraken never reaches it.
- `Sampling.LiveSampling`: receive times from the second second of 1970 on, because a cursor of zero and none are one
  value in the source.
- Binance's frame-per-row books and the BBO table: projections, no state.
- Conversion of `DECIMAL` levels to 1e-8 integers in the replay: levels arrive as integers.
- `Decimal.FixedAgrees`: Python's `int` accepts signs, spaces and non-ASCII digits the grammar excludes; the lemma is
  about texts the capture accepts, which is all the lake ever sees.
- `Replay.ReplayPartition`: precisions above eight decimals are excluded by type; the source's integer power is undefined
  for them.
- `bars.load` and the conversion of a floating-point threshold to units: the threshold is a positive integer; a change of
  thresholds in config leaves older days as they were.
- Decimal rounding of a candle's volume columns: exact integers stand for them.
- `Silver.Table.Write`: a trade is identified by symbol and numeric id, `trade_id` as text is not kept; positions in the
  log are the partition, offset and index of the venue's one topic.
- `BarsParity.ParityIff`: keeps the set of mismatched keys; their count and the first five in order, which the audit
  line prints, are not modelled.
- `Positions.AlwaysComplete`: silver tables only grow; a rebuild drops and recreates gold, and is a fresh start here.
- `SampleGrid.Sample`: unbounded integers; wrap-around at the ends of `i64` nanoseconds is not modelled.
- `remap` and `namespaces` of the DDL tool, metrics, flows, instruments, wire formats, venue adapters and the capture's
  sockets and sinks: lookups, configuration and input/output.
