# arbbot: verified models

Dafny models of the parts of arbbot where a stateful fast path must agree with a simple meaning, or where a
whole run must keep something, and proofs that they do, or of exactly when they do not.

| file | models |
|---|---|
| `Core.dfy` | options, minimum and maximum, named real products |
| `Book.dfy` | the gap-safe order book, its behaviour over a lossy channel, and the tolerant replay |
| `Ledger.dfy` | the append-only ledger and its reference meaning |
| `LedgerDb.dfy` | the tables of the SQLite mirror, their statements and the netted read path |
| `LedgerMirror.dfy` | the mirror refines the ledger |
| `LedgerHeal.dfy`, `LedgerHealing.dfy` | the three-pass import, and what it heals of any database filled from the ledger |
| `LedgerHistory.dfy`, `LedgerGaps.dfy` | whole histories of appends, lost writes and imports; ledgers the import does not heal |
| `LedgerParity.dfy` | the parity check of the SQL view against the reference |
| `Text.dfy`, `AppendLog.dfy` | cutting text at line breaks; appending to a log that crashes may tear |
| `TailFile.dfy` | incremental reading of growing files |
| `Registry.dfy` | moving entries between YAML files as text |
| `Quoting.dfy` | quote prices: self-exclusion, the target, the return hurdle |
| `QuoterRun.dfy` | order ownership of the quoter over whole runs |
| `Walking.dfy` | the price model driving the order model: how many orders a leg sends |
| `PairQuotes.dfy` | both legs of a pair, each leg's limit coming from the other's book: what a limit locks, how many orders the pair sends |
| `Fills.dfy` | hedging of reported fills in the live runner |
| `Hedge.dfy` | the maker probe's concurrent fill detectors and its hedge loop |
| `LegRisk.dfy` | the leg-risk state machine |
| `TakeTake.dfy` | the concentration cap and the cooldown of the take-take path |
| `Gauges.dfy` | the watchdog's gauge evaluator over poll histories |
| `Fees.dfy`, `Exit.dfy` | fee curves; leaving a basket by walking its books |
| `ExitQuote.dfy` | passive exits: which basket, what competes, at what price |
| `Capacity.dfy` | episodes and bankroll of the capacity backtest |

Code that changes state is a class or a method, proved equal to a specification function; the theorems are
about those functions over all inputs, runs or histories. Decimal and float quantities are exact reals. Venues,
clocks, network reads, random draws and the order in which asynchronous tasks resume are inputs chosen freely.

A ledger is called well-formed when its open records have distinct keys, corrections follow an open target, keep
its key and carry values the columns can hold, and closes are distinct, storable and follow their basket.

## What the proofs found

Where the code does not do what its comments or documents say, the model follows the code, and the exact
condition under which the promise holds is proved.

- The mirror equals the ledger except for open records that the basket table refuses and that are neither corrected
  away nor unwound in full (`MirrorRefinement`).
- The import is said to heal lost mirror writes. It does not heal a lost correction that voids a stored basket,
  nor a close that was stored while its basket was missing (`HealExactly`, `HistoryHealsExactly`, `LostVoidStays`,
  `LaterVoidStays`, `OrphanCloseStays`).
- The import does not run at all on a ledger whose corrections all lack their target (`AlignedIff`), since then the
  reference keeps them and the alignment check fails.
- A second import leaves the tables as they are, but writes and audits again every correction that a later one
  overwrote (`ReimportExactly`, `ReimportRewrites`).
- `cancel_all` forgets an order whose cancel failed, unless its gateway sweeps, and a placement that raises after the
  venue took it is never tracked (`OrphanIff`, `KillSwitchOrphan`, `RaisingPlacementOrphan`).
- A quote pulled between its fill and the report is never hedged (`UntrackedIsCompleteIff`, `PulledFillIsLost`).
- The parity check complains of every open quantity that is near a whole number without being one; of whole
  quantities it is silent exactly when the import healed (`ParityExactly`, `GateIsExact`).
- `overdue_alarms` can never report anything (`AlarmsAreSilent`), and the back-off after a failed placement
  never decides anything, since the throttle before it tests the same clock (`Quoter.EvaluateSlot`).
- Position reconciliation of the probe compares a position read with hedges counted later: it flattens a hedge in
  flight, or a fill that was hedged in between, and misses a hedge begun in between (`FlattensExactly`,
  `FlattensAHedgeInFlight`, `FlattensAHedgedFill`, `SilentOnAHedgeInFlight`). Without a book it says it will retry,
  and never does (`LatchIsFinal`).
- `_process_fill` advances its memory and drops a filled quote also when `hedge_fill` placed nothing for want of a
  gateway or a book (`PlacedExactlyIff`, `CompletedCanBeUnhedged`).
- The probe's hedge loop reads each order once: a fill that read misses is hedged again (`CountIsRightIff`,
  `EarlyReadHedgesTwice`).
- The take-take cap is safe exactly while one of the three counts shows the whole position, or the book is thin
  enough; a raising second leg leaves its fill out of all three (`CapIff`, `CapCanBeBroken`).
- A SUSTAINED streak that begins at a clock of zero is dated from its first sample with another clock, and reported
  late unless it is long enough without the time before that (`DatedIff`, `ReportedOnTimeIff`,
  `ZeroDatedStretchIsLate`, `ZeroDatedExample`); a RISE gauge missing from one poll reports its whole value at the
  next (`MissedPollReportsAnew`, `ReportsExactlyIff`).
- A quote's limit nets the maker fee at the unrounded price; at the posted one Kalshi's fee can be a cent more and
  the quote loses (`PostedBidLocksIff`, `PostedAskLocksIff`, `PostedFeeCanMiss`).
- The APR margin is rounded to four decimals, which can cut it below the hurdle (`HurdleClearedIff`,
  `HurdleCanBeMissed`).
- A passive exit locks its margin when the other leg closes at the ask it was priced at, but can miss it by
  about a tenth of a cent when the close slips by the tick that was allowed for (`ExitLocks`,
  `SlippedExitLocksIff`, `SlippedExitCanMiss`); an ask whose cancel failed stays live, forgotten and possibly below
  the floor, and from the second refresh on counts as competition (`LiveIsProfitableIff`, `OneAskIff`,
  `NeverUndercutIff`); pricing raises out of the refresh when the base price leaves [0, 1]
  (`PricingFailsExactly`).
- The dashboard's newline count counts twice what arrives between a stat and its read (`CountIsExactIff`).
- An archive file without a final newline is welded to the first entry moved into it (`ArchivedIff`); the program
  re-parses before writing and is then expected to refuse.

## Model

| member | source | states |
|---|---|---|
| Books.BookBuilder.ApplySnapshot | src/arbbot/book/builder.py:41-52 | the stored book is the snapshot sorted best first, other markets untouched |
| Books.BookBuilder.ApplyDelta | src/arbbot/book/builder.py:54-86 | not synced, stale, gap (the book is dropped) or applied, with the whole new state in each case |
| Books.BookBuilder.IsCrossed | src/arbbot/book/builder.py:88-94 | whether the best bid of a held book is at or above its best ask |
| Books.CrossedIffOverlaps | src/arbbot/book/builder.py:38-94 | a served book is crossed if and only if some bid of the venue's own book at that number is at or above some ask: never through a fault of the channel |
| Books.SortRepresents | src/arbbot/book/builder.py:45-46 | sorting keeps the price-to-size map and is strict because prices are unique |
| Books.SetLevelRepresents | src/arbbot/book/builder.py:71-75 | rewriting one level of a ladder is setting one entry of its price-to-size map, order kept |
| Books.LossyChannelSafety | src/arbbot/book/builder.py:38-86 | for every sequence of messages dropped, duplicated or reordered, a served book with number k is the venue's book k, strictly sorted |
| Books.SilentUntilSnapshot | src/arbbot/book/builder.py:67-69 | after a gap nothing is served for the market until a snapshot of it |
| Books.FaithfulChannelStaysSynced | src/arbbot/book/builder.py:54-86 | consecutive deltas after a snapshot keep the market served, up to the last of them |
| Books.KalshiReplay.StepOnce | scripts/fill_quality.py:189-228 | one event of the tolerant, dictionary-based replay |
| Books.KalshiReplay.AdvanceIndex | scripts/fill_quality.py:201-203 | advances to the given event and leaves the replay of the events before it, never going back |
| Books.SnapshotSideAgreesIff | scripts/fill_quality.py:82-88 | a snapshot side reads the same as a ladder and as a dictionary if and only if its prices are unique |
| Books.TwoReplaysAgree | scripts/fill_quality.py:205-224 | the tolerant replay is synced exactly when the builder holds a book, and then number and both sides agree, for all gaps, stale deltas and re-snapshots |
| Ledger.ApplyCorrections | src/arbbot/exec/ledger.py:26-52 | the two loops compute every surviving record with all its corrections merged in ledger order |
| Ledger.NetOpenBaskets | src/arbbot/exec/ledger.py:55-89 | the loops compute the open records net of what was unwound |
| Ledger.NetKeepsUnitEconomics | src/arbbot/exec/ledger.py:76-88 | a record is left as it is when nothing of it was closed, gone when all was, and otherwise its quantity and every money field split into an open and a closed part that add up, with everything else as it was |
| LedgerDb.TradingDb.RecordBasket | src/arbbot/exec/ledgerdb.py:90-167 | inserts unless the key is present; refuses what does not convert, what the constraints refuse, and a basket with a refused leg |
| LedgerDb.TradingDb.RecordClose | src/arbbot/exec/ledgerdb.py:170-199 | attaches the close to the first basket with the target key, or stores an orphan; refuses what does not convert |
| LedgerDb.TradingDb.ApplyCorrection | src/arbbot/exec/ledgerdb.py:202-243 | merges the fields into the stored record, with an audit row of the columns before it unless nothing changes; refuses what does not convert, legs included |
| LedgerDb.TradingDb.OpenBasketsDb | src/arbbot/exec/ledgerdb.py:246-277 | the netted view of the rows that are not voided |
| LedgerDb.TradingDb.MirrorRecord | src/arbbot/exec/ledgerdb.py:316-327 | routes a record by status, swallowing failures |
| LedgerDb.IntQtyIff | src/arbbot/exec/ledgerdb.py:56-61 | a quantity column holds the one whole number the value is within a millionth of |
| LedgerDb.RefusedIff | src/arbbot/exec/ledgerdb.py:90-199 | a basket is refused exactly for a missing time, no whole positive quantity, an amount that is not a number, or a leg of an unknown venue, without a market, or with such a quantity or amount; a close likewise |
| LedgerDb.AuditUndoes | src/arbbot/exec/schema.sql:92-99 | of any database and any records mirrored into it, taking back the audited before-images, latest first, restores the columns every row had, and of later rows those of their records |
| LedgerMirror.MirrorState | src/arbbot/exec/ledgerdb.py:144-243 | after mirroring a well-formed log: one row per storable open record in ledger order with all its corrections, every close once and attached to its basket |
| LedgerMirror.MirrorRefinement | src/arbbot/exec/ledgerdb.py:246-327 | mirroring a well-formed log record by record and reading the database gives the reference view, with the same baskets, order, scaled quantities and money, if and only if nothing is open of any record the basket table refuses |
| LedgerHealing.RemirrorExactly | src/arbbot/exec/ledgerdb.py:202-243 | mirroring a prefix again leaves the closes alone, and the baskets exactly when its corrections are absorbed; the whole log always is |
| LedgerHeal.ImportLedger | scripts/import_ledger_to_sqlite.py:40-122 | the three passes compute the import of the whole log, stopping at the first failure |
| LedgerHeal.ImportFailsExactly | scripts/import_ledger_to_sqlite.py:40-122 | the import fails in its first pass exactly when an open record is refused that is not stored yet, or has refused columns, in its second exactly when a close is refused, and leaves the tables as the passes before and the records before the failure made them |
| LedgerHeal.AlignedIff | scripts/import_ledger_to_sqlite.py:50-57 | it does not run exactly when the ledger has corrections and none of them names a target |
| LedgerHealing.ImportState | scripts/import_ledger_to_sqlite.py:75-119 | the tables after importing over any database filled from the ledger, however incompletely |
| LedgerHealing.HealExactly | scripts/import_ledger_to_sqlite.py:75-119 | over any such database the imported view equals the reference as a keyed set if and only if every open record heals: no orphaned unwind of it, and no stored row open that is corrected away, unless closed anyway |
| LedgerHistory.HistoryKept | scripts/import_ledger_to_sqlite.py:40-122 | every history of appends, live writes that arrive or are lost, and imports that finish or fail, leaves such a database |
| LedgerHistory.HistoryHealsExactly | scripts/import_ledger_to_sqlite.py:75-119 | so after any history the next import heals if and only if every open record does |
| LedgerHistory.LossHealsExactly | scripts/import_ledger_to_sqlite.py:75-119 | in terms of the writes lost before the first import: no unwind mirrored without its basket, no lost voiding correction, unless closed anyway |
| LedgerHistory.HealSufficient | scripts/import_ledger_to_sqlite.py:108-119 | in particular when no unwind was mirrored without its basket and no correction away from open was lost |
| LedgerHealing.ReimportExactly | scripts/import_ledger_to_sqlite.py:108-119 | over any such database a second import changes no row, and is a full no-op if and only if no correction was overwritten by a later one |
| LedgerGaps.LostVoidStays | scripts/import_ledger_to_sqlite.py:110-117 | a concrete ledger whose lost voiding correction the import does not heal |
| LedgerGaps.LaterVoidStays | scripts/import_ledger_to_sqlite.py:110-117 | a history without any live write, in which an earlier import is enough for a lost voiding correction to stay |
| LedgerGaps.OrphanCloseStays | src/arbbot/exec/ledgerdb.py:179-199 | a concrete ledger whose orphaned close the import does not attach |
| LedgerGaps.ReimportRewrites | scripts/import_ledger_to_sqlite.py:108-119 | a concrete ledger that every import writes to |
| LedgerParity.AgreesIff | scripts/import_ledger_to_sqlite.py:125-155 | the parity check is silent of a row if and only if it is voided, its ledger quantity is whole, or it is closed in full in both views |
| LedgerParity.SilentIsClose | scripts/import_ledger_to_sqlite.py:145-155 | where the check is silent of an amount the two views are within one and a half micro-dollars |
| LedgerParity.RoundAwayTies | src/arbbot/exec/schema.sql:207-209 | the view rounds to the nearest micro-dollar, of two to the one farther from zero |
| LedgerParity.ParityIff | scripts/import_ledger_to_sqlite.py:125-155 | the same of every row after mirroring any well-formed log in full, against the SQL view that nets rounded columns |
| LedgerParity.ParityExactly | scripts/import_ledger_to_sqlite.py:125-155 | after an import over any database filled from the ledger the whole check, with missing keys, unexpected keys and differing amounts, is silent if and only if for every open record the quantity is whole and nothing of it is orphaned, or it is closed in full in both views, or it is not open in either |
| LedgerParity.GateIsExact | scripts/import_ledger_to_sqlite.py:125-180 | of whole quantities the check is silent if and only if the import healed |
| AppendLog.LedgerFile.Append | src/arbbot/exec/ledgerdb.py:335-349 | for any bytes already in the file, what it reads as gains exactly the record |
| Text.StripIs | src/arbbot/exec/ledger.py:13-23 | stripping removes exactly the blanks around what is neither led nor ended by one |
| AppendLog.ParseLines | src/arbbot/exec/ledger.py:13-23 | blank lines and lines that do not parse are skipped, the others read in order |
| AppendLog.NothingWeldedOrLost | src/arbbot/exec/ledgerdb.py:335-349 | over any run of appends cut short at any byte, the file reads as before plus exactly the records that reached it |
| TailFile.Reader.NewLines | src/arbbot/dash/data.py:107-130 | one poll: restart after a rotation, read what is new, keep the partial line |
| TailFile.TailingIsBatch | src/arbbot/dash/data.py:107-130 | over any polls of a growing file, wherever reads are split, the results together are the records of the complete lines consumed, once and in order, and the partial line is the rest |
| TailFile.PrintedIsRead | src/arbbot/dash/data.py:118-129 | complete lines on which records were printed, blank ones in between or not, are read back as those records in order |
| TailFile.LineIsRead | src/arbbot/dash/data.py:122-129 | a blank line and one that does not parse give nothing, any other its record |
| TailFile.RotationStartsOver | src/arbbot/dash/data.py:112-130 | after a file became shorter than what was read, the reader, whatever it held, tails the new file like a batch from its beginning |
| TailFile.Reader.NewLineCount | src/arbbot/dash/data.py:89-105 | counts in chunks to the end of the file as read, but advances to the size of the stat |
| TailFile.CountRestarts | src/arbbot/dash/data.py:97-105 | a file shorter than what was counted is counted from its beginning, any other from the offset, to where it ends when read |
| TailFile.CountsAddUp | src/arbbot/dash/data.py:89-105 | the counts total the newlines consumed plus those that arrived between a stat and its read |
| TailFile.CountIsExactIff | src/arbbot/dash/data.py:89-105 | they are exact if and only if no newline arrived between a stat and its read |
| TailFile.LateLineCountsTwice | src/arbbot/dash/data.py:89-105 | two polls that count one newline twice |
| Registry.IdOfIs | scripts/prune_settled_registry.py:42 | a line starts an entry exactly when it begins with the mark and a word follows after spaces alone; that word is the id |
| Registry.SplitIsLossless | scripts/prune_settled_registry.py:110-115 | header and entries rebuild the text |
| Registry.KeptIsStable | scripts/prune_settled_registry.py:110-158 | for any move set the text written back splits into the same header and exactly the kept entries, in order and unchanged |
| Registry.SelectPartitions | scripts/prune_settled_registry.py:158-161 | kept and moved entries partition the registry's, byte for byte |
| Registry.MovingAgainIsIdle | scripts/prune_settled_registry.py:149-161 | moving the same set again moves and changes nothing |
| Registry.ArchivedIff | scripts/prune_settled_registry.py:159-161 | the archive gains exactly the moved entries if and only if its text ended a line or nothing moves |
| Registry.UnfinishedArchiveWelds | scripts/prune_settled_registry.py:159-161 | an archive whose last entry lacks its newline, and a registry with header and one settled entry, that weld |
| Quoting.ComputeTouchExclSelf | src/arbbot/exec/quoter.py:151-163 | the scan returns the first level that is not all ours |
| Quoting.TouchIsOthersBest | src/arbbot/exec/quoter.py:151-163 | with our whole order visible, the competing touch is exactly the others' best price |
| Quoting.TargetIsSafe | src/arbbot/exec/quoter.py:174-229 | every target is within the profitable limit, a tick clear of the opposite touch and at most a tick better than the competition |
| Quoting.BidTargetIsGreatest | src/arbbot/exec/quoter.py:187-210 | a bid is the greatest price of the quantum within the limit, a tick above the competition and a tick below the ask, and none exactly when those leave no room |
| Quoting.AskTargetIsLeast | src/arbbot/exec/quoter.py:211-229 | an ask the least, by symmetry |
| Quoting.HoldsWithoutCompetition | src/arbbot/exec/quoter.py:174-220 | without competition a quote within the limit is held where it is and none is invented; a suppressed side, or one without a book or a limit, has none |
| Quoting.RequoteIsTarget | src/arbbot/exec/quoter.py:174-229 | the model of re-quoting is the target on the book that shows both our quotes among the others' |
| Quoting.NoWalking | src/arbbot/exec/quoter.py:151-229 | while the competition stands still our quotes move at most three times, from any start and for any order of evaluation, although our own size is in the book |
| Quoting.FreshQuotesHold | src/arbbot/exec/quoter.py:151-229 | starting flat, the first quote on each side is also the last |
| Walking.AtMostThreeOrders | src/arbbot/exec/quoter.py:174-359 | while a leg's competition and the limits from its hedge leg stand still, on_book sends at most three orders on its two sides, from any state, in any order of evaluation, throttled or not, whatever the passes do on the other leg |
| Walking.StepRequotes | src/arbbot/exec/quoter.py:239-359 | an evaluation leaves the quotes alone or re-quotes the side, and sends an order only to move it |
| PairQuotes.BidLimitIsGreatest | src/arbbot/scan/scanner.py:257-317 | a bid's limit is the greatest tick price at which a clip that is filled and hedged, net of the hedge's fee and of the maker fee at the unrounded price, does not lose; there is none exactly when the hedge does not make it riskless or is too thin, or no tick price fits; and exactly when pricing raises |
| PairQuotes.AskLimitIsLeast | src/arbbot/scan/scanner.py:320-373 | the mirror image for an ask |
| PairQuotes.PostedBidLocksIff | src/arbbot/scan/scanner.py:303-317 | with the maker fee charged at the posted price a bid at its limit does not lose if and only if that fee grows, from the unrounded price down to the posted one, by no more than rounding left over; so it is without a maker fee and while the two prices average at most 50 cents |
| PairQuotes.PostedAskLocksIff | src/arbbot/scan/scanner.py:359-373 | the mirror image for an ask |
| PairQuotes.PostedFeeCanMiss | src/arbbot/scan/scanner.py:303-317 | ten contracts hedged at 80 and 79 cents whose limit of 78 cents loses at the fee really charged |
| PairQuotes.TargetLocks | src/arbbot/exec/quoter.py:174-229 | whatever the books show, a target leaves the hurdle's margin and the buffer a contract when filled and hedged, and only a slot whose hedge makes it riskless has one |
| PairQuotes.BidLimitIsBelow | src/arbbot/scan/scanner.py:257-317 | with positive taker fees a bid's limit is below the best bid its hedge leg shows |
| PairQuotes.AskLimitIsAbove | src/arbbot/scan/scanner.py:320-373 | an ask's limit is above the best ask its hedge leg shows |
| PairQuotes.OneLegQuotes | src/arbbot/scan/scanner.py:257-373 | so at most one leg of a pair can quote each side |
| PairQuotes.TargetIsBase | src/arbbot/exec/quoter.py:174-229 | on the displayed books of both legs, our own orders in them, every target is the one the books without us give |
| PairQuotes.OrdersOnThePair | src/arbbot/exec/quoter.py:174-359 | while the others' orders stand still on both legs the four slots of a pair together send at most three orders, and from flat at most two |
| Quoting.RoundIsNearest | src/arbbot/exec/quoter.py:165-172 | the margin is rounded to the nearest ten-thousandth, of two to the even one |
| Quoting.HurdleClearedIff | src/arbbot/exec/quoter.py:165-172 | a fill at the margin annualizes to the hurdle if and only if rounding did not cut the margin, which moves it by at most half a basis point of a dollar |
| Quoting.HurdleCanBeMissed | src/arbbot/exec/quoter.py:165-172 | ten percent over a year is such a miss |
| QuoterRun.Quoter.EvaluateSlot | src/arbbot/exec/quoter.py:236-359 | one pass of the loop: guards, withdrawal, hold, throttle, replace, place, with the whole new state and when it raises |
| QuoterRun.SendsIff | src/arbbot/exec/quoter.py:239-300 | an order is sent if and only if there is a target, the hedge leg has depth, the toxicity is absent or at most 0.03, the quote is not in place, the throttle has run out, the risk gate allows it and the quote it replaces was cancelled |
| QuoterRun.SentIsTracked | src/arbbot/exec/quoter.py:300-359 | what an order that is sent leaves: accepted, it is tracked with its id, price and size; otherwise the slot is empty |
| QuoterRun.UnguardedIsEmpty | src/arbbot/exec/quoter.py:239-276 | after a pass whose cancel succeeds, a slot that fails a guard is empty |
| QuoterRun.RestsOnlyGuarded | src/arbbot/exec/quoter.py:231-359 | over any run an order rests only where its last evaluation passed the guards or was cut off by a failed cancel |
| QuoterRun.Quoter.OnBook | src/arbbot/exec/quoter.py:231-359 | the passes in order up to the first exception, or the kill switch |
| QuoterRun.Quoter.CancelAll | src/arbbot/exec/quoter.py:416-429 | forgets every quote, whatever its cancel did, then sweeps |
| QuoterRun.RestsAsSent | src/arbbot/exec/quoter.py:231-359 | over any run what rests in a slot is exactly what its last order was accepted as, with the deadband and time of that order, and the slot is marked as failed if and only if its last order was not accepted |
| QuoterRun.FillFreesThrottle | src/arbbot/exec/main.py:355-358 | a complete fill frees the throttle: the next evaluation that passes guards and risk gate sends |
| QuoterRun.LiveIsTracked | src/arbbot/exec/quoter.py:231-429 | after any careful run, partial fills included, the live orders are exactly the tracked ones less those whose end is still unknown, one per leg and side |
| QuoterRun.OrphanIff | src/arbbot/exec/quoter.py:259-429 | an event leaves an order untracked if and only if its placement raised or came back without an id and it rests, or it survived the kill switch |
| QuoterRun.KillSwitchOrphan | src/arbbot/exec/quoter.py:416-429 | a legal run whose kill switch leaves an order live and forgotten |
| QuoterRun.RaisingPlacementOrphan | src/arbbot/exec/quoter.py:317-334 | a legal run whose raising placement leaves an order live and untracked |
| QuoterRun.AlarmsAreSilent | src/arbbot/exec/quoter.py:431-434 | every tracked machine works its first leg: no transition raises, no alarm is ever due |
| QuoterRun.FeedReplaysTracking | src/arbbot/exec/quoter.py:265-359 | replaying the intents gives the tracked orders, less those ended by fills or the kill switch |
| QuoterRun.OrdersAreSpaced | src/arbbot/exec/quoter.py:283-359 | over any run in which no complete fill or kill switch clears the side's timestamp, n orders on it take at least n minimum intervals, through cancels, rejections and re-entries |
| Fills.FillProcessor.ProcessFill | src/arbbot/exec/main.py:336-358 | hands over the new increment and remembers it unless hedging raises, also when nothing was placed; stops tracking a filled quote |
| Fills.FillProcessor.HedgeFill | src/arbbot/exec/quoter.py:372-393 | places the hedge, returns without placing when the gateway or a side of the book is missing, or raises |
| Fills.HandedOnce | src/arbbot/exec/main.py:336-358 | for any reports the increments handed to hedge_fill for a tracked order sum to its memory and never exceed the venue's fill |
| Fills.RestedIsTracked | src/arbbot/exec/main.py:336-358 | from the moment a quote rests it is tracked until the first event that pulls it or reports it in full without raising, and as long as it is, what was handed over of it is the largest count reported without raising |
| Fills.PlacedIs | src/arbbot/exec/main.py:344-348 | over any run, what was placed is what was handed over, plus what a raising hedge placed, less what met a missing gateway or book |
| Fills.PlacedExactlyIff | src/arbbot/exec/main.py:344-348 | when no raising hedge had reached the venue, no more than the memory was placed, and exactly that if and only if no report met a missing gateway or book |
| Fills.CompletedIsHandedOver | src/arbbot/exec/main.py:355-358 | the completing report has handed over the whole fill when the quote is dropped; all is placed if and only if what was not placed equals what was placed twice |
| Fills.CompletedCanBeUnhedged | src/arbbot/exec/quoter.py:383-385 | a legal run in which a completed quote is dropped with nothing placed |
| Fills.UntrackedStays | src/arbbot/exec/main.py:528-533 | a quote no longer tracked is never hedged again, whatever is still reported |
| Fills.UntrackedIsCompleteIff | src/arbbot/exec/main.py:336-358 | from the moment a quote is untracked, its fill ends up handed over in full if and only if it was then and nothing more fills |
| Fills.PulledFillIsLost | src/arbbot/exec/quoter.py:264-276 | a quote pulled between its fill and the report is never hedged |
| Hedge.ExactlyOnce | scripts/pmus_maker_probe.py:221-343 | under every interleaving of stream, poll, delayed confirm and reconciliation with stale or failed reads, dispatches sum to the recognized count, which never exceeds the fill, and every contract is unrecognized, being hedged, hedged, to be unwound, being unwound, unwound or naked |
| Hedge.RecognizedIsLargest | scripts/pmus_maker_probe.py:221-343 | over any run the recognized count of an order is the largest that any of stream, poll, delayed confirm and reconciliation acted on |
| Hedge.RunForward | scripts/pmus_maker_probe.py:521-532 | recognized counts and dispatches only grow |
| Hedge.FreshReadCatchesUp | scripts/pmus_maker_probe.py:506-532 | one detector that reads the whole fill catches the order up |
| Hedge.SettlesToTheLargest | scripts/pmus_maker_probe.py:521-532 | when a detector ends, the recognized count is the largest of the count then and its two answers, a failed one counting as zero, whatever happens before, between and after the reads; the new part is dispatched at once |
| Hedge.EitherReadCatchesUp | scripts/pmus_maker_probe.py:521-532 | so it leaves the order fully recognized if and only if it was, or either read shows all that is filled by then |
| Hedge.OneGoodReadIsEnough | scripts/pmus_maker_probe.py:521-532 | in particular, when nothing fills meanwhile, one read of the two that shows the whole fill is enough |
| Hedge.EveryDetectorReadsTwice | scripts/pmus_maker_probe.py:521-532 | and every run in which a detector ends is its two reads in turn |
| Hedge.LookRecognizes | scripts/pmus_maker_probe.py:324-335 | reconciliation raises the count of an order it looks at to the answer, whatever happens meanwhile, and goes on to hedge exactly when that is news |
| Hedge.CaughtUpStaysQuiet | scripts/pmus_maker_probe.py:521-532 | once a fill is fully recognized no detection dispatches anything more |
| Hedge.StagesAreTallied | scripts/pmus_maker_probe.py:521-700 | over any run every contract of an order is at the stage the events put it: being hedged what was recognized and not yet returned, hedged what was booked, then to be unwound, being unwound, unwound or naked |
| Hedge.PositionMoves | scripts/pmus_maker_probe.py:535-700 | a bid that fills lengthens the position and an ask shortens it, and bookings and unwinds of them count likewise |
| Hedge.RunExplained | scripts/pmus_maker_probe.py:323-335 | at every moment of every run the position is what was hedged, what is outstanding of the orders and what is not the probe's |
| Hedge.FlattensExactly | scripts/pmus_maker_probe.py:299-343 | a flatten order is sent if and only if none was decided before, there is a book, and what the position read got wrong, what is foreign and what was outstanding when it was answered do not add up to what was booked until hedged_net was last taken; it is for that difference. An order whose placement raises counts as sent |
| Hedge.FlattensOnce | scripts/pmus_maker_probe.py:336-338 | no run flattens a pair twice |
| Hedge.LatchIsFinal | scripts/pmus_maker_probe.py:336-352 | nothing is flattened after the one decision, also when it found no book and was to be retried |
| Hedge.FlattensAHedgeInFlight | scripts/pmus_maker_probe.py:299-343 | a truthful read during a hedge flattens what is being hedged |
| Hedge.FlattensAHedgedFill | scripts/pmus_maker_probe.py:299-343 | a truthful read before a fill that is hedged by the comparison flattens it with nothing outstanding |
| Hedge.SilentOnAHedgeInFlight | scripts/pmus_maker_probe.py:299-343 | a fill after the read that is still being hedged goes unnoticed |
| Hedge.HedgeLoop | scripts/pmus_maker_probe.py:535-650 | the retry loop hedges at most the quantity, counts what was reported and averages exactly what was paid |
| Hedge.CountIsRightIff | scripts/pmus_maker_probe.py:582-602 | what was really hedged is the loop's count plus what its single reads and its raising orders missed; the count is right if and only if no read was early and no raising order filled |
| Hedge.EarlyReadHedgesTwice | scripts/pmus_maker_probe.py:582-598 | one early read makes the loop hedge the same contracts twice |
| LegRisk.TradeStateMachine.Apply | src/arbbot/exec/state_machine.py:127-136 | follows the table, records history and escalation, or leaves everything as it was |
| LegRisk.ExposureIsUnresolvedFill | src/arbbot/exec/state_machine.py:65-97 | over every valid run a machine is exposed exactly between its first fill and its hedge or unwind, and never ends both ways |
| LegRisk.FailuresEscalate | src/arbbot/exec/state_machine.py:108-147 | whatever the history, the first failure of a hedge calls for working it, the second for crossing the spread, and every further one for unwinding |
| LegRisk.OverdueIff | src/arbbot/exec/state_machine.py:99-141 | an exposed machine is overdue exactly when it has been in its state longer than five, ten or sixty seconds, by state |
| LegRisk.AlarmScan | src/arbbot/exec/state_machine.py:150-164 | reports exactly the exposed and overdue machines |
| LegRisk.ExposedStatesHaveLimits | src/arbbot/exec/state_machine.py:85-106 | every exposed state has an age limit; a resting quote is not exposed |
| TakeTake.Taker.TtRefresh | src/arbbot/exec/main.py:371-404 | positions are replaced, except by an empty read when something is remembered |
| TakeTake.Taker.TakeTake | src/arbbot/exec/main.py:406-489 | the new memory after an attempt, and whether the first leg was sent |
| TakeTake.SizeIsGreatest | src/arbbot/exec/main.py:430-447 | the size is the greatest that the book, a clip of 100 and each of the three counts of the position leave under 50, and an order is sent if and only if the tick is worth it, thirty seconds have passed, one contract fits, the risk gate allows it and both gateways exist |
| TakeTake.RunRemembers | src/arbbot/exec/main.py:371-489 | what is remembered after any run: of its own firing the seed and every credit since, of the exchange the last read or completed attempt, of the other venue the last read that was not empty |
| TakeTake.AttemptsAreApart | src/arbbot/exec/main.py:430-445 | with a clock that does not run back, any two attempts of one relationship that reach the gate, sent or not, are at least thirty seconds apart, whatever comes between |
| TakeTake.OrdersAreApart | src/arbbot/exec/main.py:430-445 | in particular any two orders sent for it |
| TakeTake.AttemptsTakeTime | src/arbbot/exec/main.py:430-445 | so n attempts of it take at least n - 1 times thirty seconds |
| TakeTake.SafeIff | src/arbbot/exec/main.py:432-435 | no reply of the venue to an attempt that is sent breaks the cap if and only if the three counts show the whole position or the top of the book leaves room beside it |
| TakeTake.CapIff | src/arbbot/exec/main.py:406-489 | a run is at no point at risk of breaking the cap if and only if every attempt it sends is safe in that sense |
| TakeTake.CapHolds | src/arbbot/exec/main.py:406-489 | the cap holds over any run of safe attempts, whatever the position reads returned and whether or not fills were credited |
| TakeTake.CreditedIsSafe | src/arbbot/exec/main.py:456-471 | crediting every first-leg fill makes every attempt safe, empty position reads included |
| TakeTake.CoveredIff | src/arbbot/exec/main.py:432-471 | the count goes on covering what the venue holds if and only if what an attempt filled beyond what it credited is within what the count showed beyond the truth |
| TakeTake.CapCanBeBroken | src/arbbot/exec/main.py:451-489 | a raising second leg and a failed position read double the cap within 35 seconds |
| TakeTake.UncreditedCanBeHarmless | src/arbbot/exec/main.py:451-489 | an uncredited fill of ten contracts that breaks nothing |
| Gauges.Evaluate | scripts/gauge_deltas.py:467-659 | one run of the evaluator: report and both candidate states |
| Gauges.ReportedExactly | scripts/gauge_deltas.py:568-611 | a SUSTAINED row is reported exactly at the first poll of an unbroken stretch at which the stretch is long enough |
| Gauges.HeldSays | scripts/gauge_deltas.py:598-610 | such a report says the value, how many samples the stretch has and how many whole seconds it spans, and the row says nothing else |
| Gauges.ReportIsSound | scripts/gauge_deltas.py:126-142 | a report means at least the required consecutive samples of one process at the level, gaps at most 900 s, spanning the required time |
| Gauges.ReportedOncePerStretch | scripts/gauge_deltas.py:598-610 | no stretch is reported twice |
| Gauges.DatedIff | scripts/gauge_deltas.py:574-597 | an unbroken stretch is dated from its first sample if and only if that reads a clock other than zero, or the clock still reads zero |
| Gauges.LongAtIff | scripts/gauge_deltas.py:574-603 | it is found long enough if and only if it is, counted from its first sample, and, begun at clock zero, is so without the time up to its first other clock |
| Gauges.ReportedOnTime | scripts/gauge_deltas.py:568-611 | a stretch that does not begin at clock zero is reported exactly at its first poll with enough samples and enough time since its first one |
| Gauges.ReportedOnTimeIff | scripts/gauge_deltas.py:568-611 | of any stretch, that poll reports it if and only if it did not begin at clock zero or is long enough without the time up to its first other clock |
| Gauges.ZeroDatedStretchIsLate | scripts/gauge_deltas.py:574-597 | a stretch begun at clock zero is dated from its first sample with another clock |
| Gauges.ZeroDatedExample | scripts/gauge_deltas.py:574-603 | a rule of three that reports the fourth of four five-minute polls from clock zero |
| Gauges.RiseReportedExactly | scripts/gauge_deltas.py:612-623 | over any history a RISE row of any threshold is reported at a poll if and only if the poll does not seed, carries the gauge, and shows an increase above the threshold; the report carries that increase, the value and whether the process restarted |
| Gauges.IncreasesTelescope | scripts/gauge_deltas.py:612-623 | for any threshold and any history, restarts, polls without the gauge, lost state and missing clocks included, the reported increases and those that stayed silent are what every process was seen to count since it was seeded, plus the excess of falls and of polls after one without the gauge; at threshold zero none stays silent |
| Gauges.ReportsExactlyIff | scripts/gauge_deltas.py:614-618 | that excess is nothing if and only if no count falls within a process and every poll after one without the gauge finds nothing counted before (or, never seen, nothing now) |
| Gauges.MissedPollReportsAnew | scripts/gauge_deltas.py:614-618 | a poll without the gauge makes the next report its whole value, if that is above the threshold |
| Gauges.NoVerdictIsLost | scripts/gauge_deltas.py:647-655 | over any history the carry has no duplicates, at most twelve entries, only pending verdicts, and all of them if and only if at most twelve are pending |
| Gauges.CarryIsNewest | scripts/gauge_deltas.py:647-655 | an undelivered poll carries on the latest twelve verdicts in the order in which they were first said, without duplicates, the carried ones before its own |
| Gauges.RestartReportedExactly | scripts/gauge_deltas.py:536-566 | a restart is reported if and only if the poll compares with an earlier one and the samples of the two show another process |
| Gauges.VanishedExactly | scripts/gauge_deltas.py:504-533 | a name is paged as vanished if and only if the previous poll had it and this one does not, and noted as never seen only on a seeding poll |
| Fees.CeilCentsIsLeast | src/arbbot/fees/curves.py:28-29 | rounds up by less than a cent |
| Fees.MakersPayOnKalshi | src/arbbot/fees/curves.py:70-136 | a maker fee is Kalshi's k*P*(1-P)*size rounded up to the cent and nothing elsewhere, refused exactly out of range |
| Fees.UsModeFee | src/arbbot/fees/curves.py:100-107 | in the US mode a taker pays a tenth of a percent of the premium, at least a tenth of a cent, and nothing for nothing |
| Fees.TakerFeePeaks | src/arbbot/fees/curves.py:32-53 | a taker fee before rounding is at most a quarter of k a contract, and that only at 50 cents, as the published peaks say |
| Exit.Walk | scripts/unwind_analysis.py:50-57 | the loop leaves and gains what the greedy takes say |
| Exit.GreedySells | scripts/unwind_analysis.py:50-59 | the walk sells exactly the size, or the whole depth and then fails if and only if that is short |
| Exit.GreedyIsBest | scripts/unwind_analysis.py:44-57 | no other way of selling as much within the depth brings in more |
| Exit.VwapFeeIsConservative | scripts/unwind_analysis.py:60-66 | the fee at the average price is never below the fees fill by fill, and equal if and only if k is zero or all fills are at one price |
| Exit.VwapShortfallIsSmall | scripts/unwind_analysis.py:60-66 | ceiled once, it falls short of the ceiled fees fill by fill by less than a cent a level |
| Exit.ExitProceeds | scripts/unwind_analysis.py:37-68 | the legs one by one, ending at the first that cannot be left |
| Exit.BasketIsItsLegs | scripts/unwind_analysis.py:37-68 | what a basket brings in is the sum of what its legs do, it can be left if and only if every leg can, and otherwise the first leg that cannot decides why |
| Exit.LegNetIsConservative | scripts/unwind_analysis.py:41-67 | a leg of a tidy book fails exactly for missing depth, and is otherwise valued at the best gross less a fee no lower than the venue's |
| Exit.LegNetExactly | scripts/unwind_analysis.py:41-67 | leaving a leg of a tidy book succeeds exactly with enough depth and then brings in, for YES the gross of the walk over the bids, for NO a dollar a contract less the least cost of as much YES at the asks, less exactly the taker fee on the average price in the terms the venue reports |
| Exit.ExitFailsExactly | scripts/unwind_analysis.py:41-59 | a basket cannot be left if and only if a book is missing or too shallow |
| Exit.WalkCost | src/arbbot/scan/scanner.py:52-63 | the loop computes the recursive cost, including nothing from an empty ladder |
| Exit.BuyingIsCheapest | src/arbbot/scan/scanner.py:52-63 | it is the least at which the size can be bought, and none exactly for missing depth |
| ExitQuote.ChooseBaskets | src/arbbot/exec/main.py:616-640 | per relationship the basket being worked if still usable, otherwise the oldest usable, none exactly when none is usable |
| ExitQuote.CompetingAsk | src/arbbot/exec/main.py:685-692 | the first ask by which enough foreign depth is on offer |
| ExitQuote.FootprintNeverLowers | src/arbbot/exec/main.py:674-692 | however much of our resting or cancelled size is still visible, the competing price is never below the one of the book without us |
| ExitQuote.FullFootprintIsExact | src/arbbot/exec/main.py:674-692 | and it is exactly that one when all of it is visible |
| ExitQuote.TargetIsLeast | src/arbbot/exec/main.py:694-697 | the price is the least whole cent that is profitable, above the bid and at most a tick inside the competition |
| ExitQuote.ExitLocks | src/arbbot/exec/main.py:660-697 | every allowed price locks the margin net of the fees actually charged when the close is at the ask |
| ExitQuote.PartsLock | src/arbbot/exec/main.py:660-697 | filled in parts, each fee rounded up, it keeps the lock within a cent a part, and all of it if and only if the room covers the fees of the parts |
| ExitQuote.SlippedExitLocksIff | src/arbbot/exec/main.py:660-697 | with the allowed slip the lock holds if and only if the room above the minimum price covers what the two fees grew by: the maker fee from base to resting price and 0.0006(0.99-2a) a contract on the other leg |
| ExitQuote.SlippedExitNearlyLocks | src/arbbot/exec/main.py:660-697 | with the allowed slip the lock is missed by less than a tenth of a cent a contract and 1.02 cents in all |
| ExitQuote.SlippedExitCanMiss | src/arbbot/exec/main.py:660-697 | a price at which it is missed |
| ExitQuote.ExitDesk.ExitRefresh | src/arbbot/exec/main.py:698-725 | hold, drop and replace, or place, with the whole new state of tracked and stray asks and of the remembered last cancel |
| ExitQuote.ExitDesk.ExitDrop | src/arbbot/exec/main.py:560-573 | the ask is forgotten, but remembered for one refresh, whatever its cancel did |
| ExitQuote.TrackedIsProfitable | src/arbbot/exec/main.py:698-725 | what a refresh tracks is profitable, at most the target, and at the target with the wanted quantity unless it is young and would only move away |
| ExitQuote.KeptOrReplaced | src/arbbot/exec/main.py:693-725 | an ask survives a refresh exactly when the target is at most 99 cents and it is there already with the wanted quantity, or is below it, profitable and younger than 180 seconds; otherwise a new ask at the target is tracked exactly when that is at most 99 cents and the venue accepts |
| ExitQuote.TrackedWasPlaced | src/arbbot/exec/main.py:560-725 | over any run what is tracked was placed by one refresh, at its target with its quantity, is as old as the time since, and was neither filled nor dropped in between |
| ExitQuote.LiveIsProfitableIff | src/arbbot/exec/main.py:560-725 | what is live after a refresh is profitable if and only if every stray was, and the tracked ask was in case its cancel failed |
| ExitQuote.OneAskIff | src/arbbot/exec/main.py:560-725 | over any run, in which asks grow old too, at most the tracked ask is live if and only if no cancel failed and no unanswered placement rests |
| ExitQuote.SlowAskIsReplaced | src/arbbot/exec/main.py:706-717 | an ask that would only move away is left alone for 180 seconds and then replaced, and stays live if its cancel fails |
| ExitQuote.NeverUndercutIff | src/arbbot/exec/main.py:674-692 | no refresh can take our own asks for competition if and only if the remembered last cancel covers every ask that was lost track of |
| ExitQuote.CoveredThrough | src/arbbot/exec/main.py:560-693 | so it is over any run that leaves no ask behind, and still at the refresh after the first cancel that failed |
| ExitQuote.StraysCountAfterwards | src/arbbot/exec/main.py:693-725 | after a refresh that cancels nothing it is so if and only if nothing was left behind |
| ExitQuote.StrayBelowTheFloor | src/arbbot/exec/main.py:560-567 | a failed cancel that leaves an ask below the floor beside the new one |
| Capacity.BuildEpisodes | scripts/capacity_backtest.py:99-111 | the loop cuts the ticks exactly at gaps of more than two minutes |
| Capacity.CutIsUnique | scripts/capacity_backtest.py:99-111 | there is only one such cut |
| Capacity.BankrollCurve | scripts/capacity_backtest.py:165-184 | the loop computes the greedy spending |
| Capacity.SpendingIsGreedy | scripts/capacity_backtest.py:165-184 | each take in turn gets its cost or the room the earlier ones left, whichever is less, unless it does not clear the floor or the room is at most a dollar; what is used, left and used per relationship, the profit in proportion, and the count of takes follow from those amounts alone |
| Capacity.SpendingIsSound | scripts/capacity_backtest.py:165-184 | remaining and used capital add up to the bankroll, used is the sum over relationships, each within its cap, and the profit clears the floor |
| Capacity.UnfundedMeansFull | scripts/capacity_backtest.py:172-184 | a qualifying take not funded in full leaves at most a dollar of room for its relationship, now and later |

## Left out

- The content of leg rows, of the other columns and of the audit rows of the first import pass: written and never read back here. That a refused leg refuses its basket is modelled.
- Content hashes of records: a record is its own key, so hash collisions do not exist.
- JSON text: records are values, money and quantity fields are numbers or absent; a printer and a parser with JSON's promises (one line, parses back, no proper prefix parses) are parameters.
- LedgerHeal.ImportLedger: the audit rows of the first pass and the returned statistics are left out; neither is read back.
- LedgerHealing.HealExactly: speaks of databases filled from the same ledger, not of ones edited by hand or imported from another.
- Float and decimal rounding, including `fill_quality.py`'s rounding of prices to four decimals and `gap_calc`.
- Quoting.NoWalking: counts moves of the prices alone; `Walking.AtMostThreeOrders` and `PairQuotes.OrdersOnThePair` count the orders of on_book. None models price jitter or the deadband, which move or hold quotes at random, nor placements that fail.
- PairQuotes.OrdersOnThePair: starts from quotes that the limits without us allow, such as none; from quotes left by other competition only the bound of `Walking.AtMostThreeOrders`, per leg and with fixed limits, is proved.
- The risk manager, the toxicity feed and the risklessness of a quote's basket: inputs.
- QuoterRun.Quoter.EvaluateSlot: keeps a quote's state machine as its state; histories and ages are in the LegRisk module.
- `Quoter.on_fill`: the runner handles fills in `_process_fill`, which is modelled.
- Quoting.HurdleClearedIff: takes the years to resolution as positive, as the runner sets them.
- Hedge.FlattensExactly: reconciliation looks at any orders in any order, as often as it likes; one pair is modelled, since pairs share nothing.
- Gauges.ReportIsSound: state files that are damaged but readable are not modelled; a lost one is.
- TailFile.TailingIsBatch: a rotation that leaves the file at least as long as the offset goes unnoticed by the code and is not part of the histories.
- Registry.KeptIsStable: text is cut at newlines only; the YAML re-parse that guards the write is not part of this model.
- Which episodes and flow windows become takes in the capacity backtest, and its reports.
- `_exit_fill`, the WebSocket and REST clients, gateways, alerts, dashboards and the Rust engine: input, output, or not part of this model.
