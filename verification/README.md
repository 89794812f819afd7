# Deterministic core of a news-driven trading pipeline

The pipeline reads news, triages it, sizes trades, guards open positions and replays what it did.
Most of it is SQL and model calls. This project models the parts in between that decide by
themselves: they carry state over bars, trades, scans, passes and redelivered messages, and they do
arithmetic that has to come out right. Every loop of those parts is a method or a class here, proved
against a function of its inputs or of the old state, and what the code promises is proved about
those functions, over all inputs and all runs.

| Component | Files |
|---|---|
| Exit-ladder replay (`ops/tools/scalp_replay.py`) | Ladder, LadderFacts, LadderRuns, LadderEvents, LadderReport, LadderPairs, LadderTrails, LadderMirror, Replay, Variants, Rounding, Numbers |
| Rolling trade book and first-hit scoring (`src/c12_burst/book.py`) | Book, BookFacts, Extremes, FirstHit, Brackets, SymbolBook |
| Risk sizing and the portfolio it builds (`src/a3_risk`) | Direction, Sizing, SizedNumbers, Portfolio, Intents |
| Morning sheet and late passes (`src/a4_premarket`) | Pacing, Forwarding, Overnight, OvernightRuns, OvernightMail, OvernightSlots, OvernightPacing, OvernightDesk |
| Momentum scanner emission (`src/c10_scanner`) | Emission, EmissionRuns, EmissionJournal, Scanner, Cooloff |
| Position guard (`src/a12_guard`) | Guard, GuardExits, GuardService |
| Story-level repeat suppression (`src/a1_triage`) | Suppression |
| Nightly thematic run and thesis store (`src/a5_thematic`) | ThesisStore, Thematic, ThematicRun, ThematicWrites, ThematicNights, ThematicAnchors, ThematicService |
| Fact-sheet trimming (`src/a13_chat`) | FactSheet |

Conventions. Prices, sizes and money are exact reals; `round(x, 2)` is round-half-to-even on the
exact value. Times are integers in microseconds on a clock whose zero is a local midnight, except in
the trade book, where epoch seconds are reals as they are in the code. Python's floor division and
Dafny's division agree wherever the divisor is positive, and all divisors here are. Item ids, tickers
and thesis ids are numbers. A table is a sequence of rows, a row's id is its place, and
`ON CONFLICT DO NOTHING` is an insert that looks for the key first. A crash is a cut: a run commits
some prefix of its transactions, and anything not acknowledged may come back any number of times.

## What turned out not to hold

Each of these is kept as the code has it, next to the condition under which the property does hold,
which is exact where the text says if and only if.

- The re-sort guard of `add_trade` (`src/c12_burst/book.py:54`) never fires, because the key it
  compares with has just been appended. The book agrees with its trade log after every trade if and
  only if no trade opens a bucket older than the newest (`BookFacts.BookAgreesIffInOrder`). The
  docstring says a late trade whose bucket is not kept is dropped; the code appends it behind the
  newest bucket, where no lookup below the newest bucket sees it (`SymbolBook.LatePrintInvisible`).
- LONG and SHORT ladders mirror each other, rounding included, if and only if the entry price is a
  whole number of cents (`LadderMirror.MirrorIffOnGrid`).
- A wider trail outlasts a narrower one if and only if the narrow trail does not block: armed, it
  must not move the stop off its initial place without reaching breakeven while the wide trail
  leaves it there (`LadderTrails.WiderTrailOutlastsIff`, and on terms taken as they are
  `LadderTrails.SameTermsOutlastIff`; `Blocks` reads this off the terms). Against the base ladder
  every wider variant does; trail3.0 outlasts trail2.5 if and only if it is not the case that the ATR
  is one cent and the entry a half cent that rounds to the winning side
  (`Variants.Trail3OutlastsIff`; `Variants.HalfCentEntry` is such a trade).
- Sizing divides by the unrounded stop distance, so an intent can put more at risk than the heat cap
  had room for if and only if its stop, rounded to the cent, lies further from the limit
  (`Portfolio.OvershootsIff`; in `Portfolio.HeatCapOvershot` a cap of 10.60 ends up holding 11.00).
- `passes_remaining` counts a firing at the open, which `should_run` then refuses. A day of passes
  that all have enough candidates spends the whole budget if and only if no firing falls on the open
  or the budget is below the passes first counted; else a share of floor(budget / passes) is stranded
  (`OvernightPacing.SaturatedDayOfPasses`).
- The late budget counts journal rows, so a pass that dies between commit and acknowledgement pays
  for the same item twice (`OvernightRuns.RedeliverySpendsTwice`). The slots of a pass buy a hand-off
  each if and only if none of its candidates has one already and none comes twice
  (`OvernightSlots.PassBuysIff`).
- A scanner emission whose transaction rolled back stays remembered, so the name's next emission is
  queued without a row and no cap counts it (`EmissionJournal.RolledBackEmitBreaksCap`). Queue and
  rows agree if and only if no such name is emitted again that day
  (`EmissionJournal.QueueMatchesRowsIff`), and the daily and hourly caps hold for the queue if and only
  if these names fit beside the rows (`EmissionJournal.QueueCapIff`, `EmissionJournal.QueueHourIff`).
- The early window holds back only down-movers, although the comment at
  `src/c10_scanner/rules.py:385-389` says that nothing is emitted. A scan in it emits nothing if and
  only if it has no room or every survivor is under the score floor or a pre-checked down-mover
  (`Emission.EarlyScanIdleIff`; `Emission.UpMoverEmittedEarly` is a scan that does).
- `_cooloff_tickers` documents that a holiday makes the window longer. The window holds its sessions
  if and only if holidays take no more weekdays than it has to spare, which is none for whole weeks
  and two at most (`Cooloff.HoldsSessionsIff`, `Cooloff.SpareIsSmall`); from a Saturday one holiday is
  enough to leave it short (`Cooloff.HolidayLeavesItShort`).
- An ESCALATE does not hold its full window: inside it a plain repeat is triaged again if and only if
  the last verdict of the story is a DISCARD older than the discard window
  (`Suppression.InsideEscalateWindowIff`). Replies that never validate leave no verdict, and without a
  verdict in the window nothing is suppressed (`Suppression.NoPriorIff`).
- The intent id holds the configuration version: a signal has one intent if and only if all its sized
  deliveries carried the same one (`Intents.OneIntentPerSignalIff`); a redelivery under a new
  configuration adds a second (`Intents.NewConfigSecondIntent`).
- A guard alert is journaled again by every turn in which the server dies on an undecided position,
  and only then (`Guard.TurnAlertsIff`, `Guard.RunCountsAlerts`); verdicts and rejects are not.
- Several theses can be minted for one anchor item. Over any nights, each cut after any commit or
  acknowledgement, there are as many new theses resting on the item as committed specs that name it
  (`ThematicAnchors.ThesesPerAnchor`), so more than one if and only if some reply's committed specs
  name it twice or a later night that lists it names it again: as a wide item, or on a message no
  night had acknowledged, which is the first night's own message only if that night died between the
  commit and the acknowledgement (`ThematicAnchors.SecondThesisIff`, `ThematicAnchors.UnackedIff`).
  Inputs of each kind are `ThematicAnchors.NamedOnTwoNights` and
  `ThematicAnchors.NamedTwiceInOneReply`.

## Model

| member | source | states |
|---|---|---|
| Rounding.RoundReflect | ops/tools/scalp_replay.py:52-54 | Rounding to cents and to hundredths of a cent commutes with reflection about a whole-cent price |
| Rounding.Round2Near | ops/tools/scalp_replay.py:52 | A rounded price is within half a cent |
| Rounding.Round2Monotone | ops/tools/scalp_replay.py:96 | Rounding keeps price order |
| Replay.Replay | ops/tools/scalp_replay.py:43-110 | The scalp loop reports exactly the ladder function's summary for its terms; with a zero risk unit it marks at the last close, or divides by zero once a bar reaches the entry minute |
| Replay.RaiseStop | ops/tools/scalp_replay.py:90-100 | The end of a bar lifts the high-water mark and moves the stop only to a tighter proposal |
| Replay.MarkAndReport | ops/tools/scalp_replay.py:101-110 | What is still open is marked at the last close, then the report is built |
| Replay.ReplayHold | ops/tools/scalp_replay.py:113-161 | The catalyst loop reports the same ladder function without time stop and scale-out, with the same zero-risk cases |
| Replay.ReplayVariants | ops/tools/scalp_replay.py:164-181 | All seven variants are reported, each on its own terms over the same bars, or none when the ATR is zero and a bar reaches the entry minute |
| Ladder.IdleIsSummary | ops/tools/scalp_replay.py:58-60 | Bars that stop short of the entry minute leave only the mark at the last close |
| LadderFacts.Accounting | ops/tools/scalp_replay.py:52-104 | Exit quantities sum to the initial quantity and P&L is the sum over exits of signed move times quantity, for every mix of exits |
| LadderFacts.MfeIsBestMove | ops/tools/scalp_replay.py:65 | The reported best excursion in R is the best favourable move over the bars lived through |
| LadderRuns.ExitsBounded | ops/tools/scalp_replay.py:66-104 | Every exit price means what its layer says and lies between the initial stop and the best price seen |
| LadderRuns.PnlBounded | ops/tools/scalp_replay.py:52-110 | P&L lies between losing the initial stop distance and taking the best move on every share, up to rounding |
| LadderRuns.StopOnlyTightens | ops/tools/scalp_replay.py:90-100 | From any bar to any later bar the stop never loosens |
| LadderRuns.RunnerHoldFreezes | ops/tools/scalp_replay.py:92-94 | With runner_hold the bar that scales out is the last to move the stop |
| LadderRuns.OneFinalExit | ops/tools/scalp_replay.py:66-104 | At most one scale-out, then exactly one final exit |
| LadderRuns.FlatExits | ops/tools/scalp_replay.py:73-77 | No position outlives the force-flat bar, whose close is the FORCE_FLAT price; an EOD mark means there was no such bar |
| LadderRuns.BreakevenReached | ops/tools/scalp_replay.py:95-100 | Once a survived bar closes at the breakeven threshold the stop stays at entry or better |
| LadderEvents.FirstIsEntryMinute | ops/tools/scalp_replay.py:57 | The bars that count start with the whole minute that holds the entry |
| LadderEvents.ScaledIff | ops/tools/scalp_replay.py:83-89 | A ladder has scaled out exactly when some bar from the entry minute on found it open, left it open and traded at the target: its high for a LONG, its low for a SHORT |
| LadderEvents.FirstTouchSells | ops/tools/scalp_replay.py:83-89 | With scale-out on and two shares or more, the first such bar sells half of them at the target, before every other exit |
| LadderEvents.ClosedIff | ops/tools/scalp_replay.py:66-82 | A ladder is closed exactly when some bar that met it traded through its stop, reached 14:50 or came an hour after entry with less than half the initial risk ahead |
| LadderEvents.ClosingExit | ops/tools/scalp_replay.py:66-82 | That bar's exit takes all open shares: at the stop under the stop's layer, else at the close as FORCE_FLAT, else at the close as TIME |
| LadderEvents.HwmIsPeak | ops/tools/scalp_replay.py:90 | While open, the high-water mark is the highest high (lowest low) from the entry minute on, or the entry price |
| LadderEvents.TrailFollows | ops/tools/scalp_replay.py:90-100 | Once a bar closes where the trail arms, the stop is never again looser than the trail from the peak so far |
| LadderEvents.StopHasSource | ops/tools/scalp_replay.py:90-100 | Every stop is the initial one, the entry price once breakeven was due, or the trail from the peak at a bar that armed it |
| LadderReport.ReportMeans | ops/tools/scalp_replay.py:101-110 | P&L is what the exits earn on the entry price to half a cent, r that per initial risk, mfe_r the best move of any bar while open and close_r the close of the first 14:50 bar, each in R to its last digit |
| LadderTrails.WiderTrailOutlasts | ops/tools/scalp_replay.py:90-100 | Where the narrow trail does not block, the wider one's stop is never tighter while both run, so it never closes on an earlier bar |
| LadderTrails.WiderTrailOutlastsIff | ops/tools/scalp_replay.py:90-100 | On all bars, and for every way of taking the rest of the position off, the wider trail outlasts the narrower one exactly when the narrow trail does not block, a condition read off the terms; likewise for the mere order of closing |
| LadderTrails.SameTermsOutlastIff | ops/tools/scalp_replay.py:90-100 | On terms taken as they are, with breakeven due before the trail arms, the wider trail outlasts the narrower one on all bars exactly when the narrow trail does not block; likewise for the mere order of closing |
| LadderTrails.CrossClosesLater | ops/tools/scalp_replay.py:90-100 | Wherever the narrow trail blocks, three bars on which the wider ladder closes first on the terms as they are |
| LadderTrails.TrailFits | ops/tools/scalp_replay.py:90-100 | A narrow trail within the arming distance, or a wide one that improves on the initial stop by more than a cent where it arms, never blocks |
| LadderTrails.SomeTermsBlock | ops/tools/scalp_replay.py:90-100 | A 2.5 against a 5 ATR trail on a 2 ATR stop blocks |
| LadderTrails.BlockedClosesLater | ops/tools/scalp_replay.py:90-100 | Wherever the narrow trail blocks, three bars on which the wider ladder closes first |
| LadderPairs.ScaleOutSeparable | ops/tools/scalp_replay.py:83-104 | Scaling out keeps stops, final bar, layer and price; P&L differs by half the shares times final minus target gain once the target was reached, else by zero |
| LadderPairs.NoTimeAgrees | ops/tools/scalp_replay.py:78-82 | Without a TIME exit, switching the time stop off changes nothing |
| LadderPairs.RunnerClosesFirstAtBreakeven | ops/tools/scalp_replay.py:90-100 | With a trail from breakeven on, runner_hold and base are one ladder until the scale-out, and the runner closes first only on a BREAKEVEN exit at entry |
| LadderMirror.MirrorReport | ops/tools/scalp_replay.py:51-110 | At a whole-cent entry, the opposite side on reflected bars reports the same figures and reflected exits |
| LadderMirror.MirrorIffOnGrid | ops/tools/scalp_replay.py:52-98 | The sides mirror on all bars and terms exactly when the entry is a whole number of cents |
| Variants.VariantsCompared | ops/tools/scalp_replay.py:164-181 | trail2.5 and trail3.0 outlast base; notime equals base when base does not time out; runner_hold against base |
| Variants.VariantTermsAre | ops/tools/scalp_replay.py:49-53 | Each variant's stop distance, trail width, thresholds and switches in the trade's own numbers, and its target on the side of the trade |
| Variants.HoldTermsAre | ops/tools/scalp_replay.py:113-125 | The catalyst ladder's stop distance is a share of the entry price; it has no target and no time stop, and trails only with an ATR |
| Variants.Trail3OutlastsIff | ops/tools/scalp_replay.py:164-181 | trail3.0 outlasts trail2.5 on all bars, and never closes first, exactly when the ATR is not one cent or the entry is not a half cent that rounds to the winning side |
| Variants.HalfCentEntry | ops/tools/scalp_replay.py:52-98 | A long at 100.015 on an ATR of one cent, where trail3.0 can close first |
| Variants.NoScaleCompared | ops/tools/scalp_replay.py:164-181 | base and noscale end on the same bar, layer and price and differ in P&L by half the shares times final less target gain once the target was reached |
| Variants.TrailLocksIn | ops/tools/scalp_replay.py:95-100 | Every TRAIL exit realises at least (stop_k - trail_k) ATR per share to half a cent; half an ATR on base |
| Variants.ShortReplaysAsLong | ops/tools/scalp_replay.py:43-110 | Every variant shorted on reflected bars reports what the long reports, target included |
| Variants.ShortHoldsAsLong | ops/tools/scalp_replay.py:113-161 | The same for the catalyst ladder |
| BookFacts.ResortNeverFires | src/c12_burst/book.py:50-56 | After the eviction the new bucket is last, so the dictionary is never re-sorted |
| BookFacts.AddAgreesIff | src/c12_burst/book.py:41-63 | One trade keeps the book in agreement with its log exactly when it opens no older bucket |
| BookFacts.BookAgreesIffInOrder | src/c12_burst/book.py:41-63 | Keys are the last kept distinct bucket keys in order, each bucket is the candle of its trades and the last price is right, after every trade, exactly when no trade ever opens an older bucket |
| BookFacts.CandleBounds | src/c12_burst/book.py:57-61 | A bucket's high and low bound its trades and are attained |
| SymbolBook.SymbolBook.constructor | src/c12_burst/book.py:33-38 | An empty book that keeps at least one bucket |
| SymbolBook.SymbolBook.AddTrade | src/c12_burst/book.py:41-63 | The dictionary, last price and last time after a trade are those of the fold over the whole log |
| SymbolBook.SymbolBook.PriceAt | src/c12_burst/book.py:71-80 | The close before the first later key; on an ordered book the close of the greatest kept key not after ts |
| SymbolBook.SymbolBook.Extreme | src/c12_burst/book.py:111-119 | High and low of the window; on an ordered book, leaving out the current bucket ends the window before it |
| SymbolBook.SymbolBook.Since | src/c12_burst/book.py:66-69 | The kept buckets of a window, in order |
| SymbolBook.SymbolBook.EntryAfter | src/c12_burst/book.py:121-129 | The open and time of the first bucket in dictionary order at or after the delayed entry, on an ordered book of the least such key, or nothing when there is none |
| SymbolBook.SymbolBook.Walk | src/c12_burst/book.py:131-158 | Forward prices, both maximal excursions over the window, and the first bucket that decides, with its time; a zero price fails exactly when the window has a bucket |
| SymbolBook.LatePrintInvisible | src/c12_burst/book.py:48-56 | A print that opens an older bucket sits behind the newest and answers no lookup below it |
| SymbolBook.LateLogDisagrees | src/c12_burst/book.py:48-56 | Two trades, 25 seconds apart in the wrong order, already break the agreement |
| Extremes.ExtremesAreTradeExtremes | src/c12_burst/book.py:111-119 | While the book agrees with its log, the extremes bound every accepted trade of the kept window and are prices traded in it |
| FirstHit.WiderStopKeepsTarget | src/c12_burst/book.py:151-155 | Widening the stop never turns a target into a stop nor moves it |
| FirstHit.WiderTargetKeepsStop | src/c12_burst/book.py:151-155 | Widening the target never turns a stop into a target nor moves it |
| FirstHit.HorizonKeepsScore | src/c12_burst/book.py:144-157 | A longer horizon never changes a decided score |
| FirstHit.NoHitIffUnder | src/c12_burst/book.py:147-157 | "none" exactly when both excursions stay under their thresholds |
| FirstHit.FadeSwaps | src/c12_burst/service.py:238 | The fade path swaps the two excursions |
| FirstHit.FadeIsDual | src/c12_burst/book.py:147-155 | A burst and its fade with swapped thresholds decide on the same bucket and never both score "target" |
| Brackets.ScoreInPrices | src/c12_burst/book.py:142-157 | For a rise, target means that the first bucket with its high at px (1 + target) or its low at px (1 - stop) has only the former, stop that it has the latter; for a fall the other way round; none means no such bucket |
| Brackets.ExcursionsInPrices | src/c12_burst/book.py:147-150 | The reported excursions run from px to the window's highest high and lowest low, never below zero |
| Brackets.ScoreInTrades | src/c12_burst/book.py:129-155 | On a book that agrees with its log the score is target exactly when some trade of the window reaches the target with no trade of its own or an earlier bucket at the stop, and stop exactly when some trade is at the stop with none of an earlier bucket at the target |
| Brackets.ExtremeInTrades | src/c12_burst/book.py:107-115 | `extreme` returns the highest and lowest trade price of the window, without the current bucket when asked, and nothing exactly when no trade counts |
| Brackets.BucketSeconds | src/c12_burst/book.py:46 | Bucket k holds the seconds from 5k up to 5k + 5 |
| Direction.EntryStopRisk | src/common/direction.py:48-50 | A rounded entry stop risks at most half a cent more than intended, and exactly the distance when it lands on a cent |
| Direction.OpenRiskShrinks | src/common/direction.py:116-120 | A tighter stop or fewer shares never risk more, and risk is never negative |
| Sizing.ClipIsCap | src/a3_risk/sizing.py:208-249 | A share count passes a clip exactly when use plus the count's weight stays within the cap |
| Sizing.QtyIsLargestFit | src/a3_risk/sizing.py:251 | The floor of the minimum is the largest count that fits the budget and every clip that applies |
| Sizing.SizeIsSoundAndTight | src/a3_risk/sizing.py:251-276 | SIZE means at least one share, everything kept, risk at or above the viability floor, and one more share breaking something |
| Sizing.SizeIffSomeViableFit | src/a3_risk/sizing.py:257-261 | Past the gates the verdict is SIZE exactly when some viable count fits, else SIZE_CLIPPED |
| Sizing.NoRoomVetoes | src/a3_risk/sizing.py:224-261 | Any applicable cap already used up forces SIZE_CLIPPED |
| Sizing.VerdictExactly | src/a3_risk/sizing.py:89-276 | An order is sized exactly when no gate is raised and some viable share count fits; otherwise the verdict names the first gate raised, or SIZE_CLIPPED when none is |
| Sizing.TightestFirst | src/a3_risk/sizing.py:252 | Among equally tight clips the binding one is the first in the chain |
| Sizing.TightestClip | src/a3_risk/sizing.py:208-252 | The loop over the clip table finds its first smallest entry |
| Sizing.SizeEntry | src/a3_risk/sizing.py:186-276 | The whole sizing call returns the specified verdict, numbers and flags |
| SizedNumbers.LongLimit | src/a3_risk/sizing.py:74-87 | A LONG bids at the rounded ask or above, by at most ten basis points; up to 20 bps of spread by half the spread |
| SizedNumbers.ShortLimit | src/a3_risk/sizing.py:74-87 | A SHORT offers at the rounded bid or below, by at most ten basis points, the ask standing in for a missing bid |
| SizedNumbers.SizedExactly | src/a3_risk/sizing.py:186-276 | In the call's own figures: an order is sized exactly when no gate is raised and some count keeps the risk budget and every cap, balance and heat limit and is worth it, and the count is the largest that keeps them |
| SizedNumbers.SizeSays | src/a3_risk/sizing.py:256-276 | The limit, both stops on the losing side of it at their ATR distances, and the dollars at risk, each to its rounding |
| SizedNumbers.BindingSays | src/a3_risk/sizing.py:251-254 | The clip named as binding implies the budget and all other caps for any share count; none is named exactly when the budget implies them |
| SizedNumbers.FlagsSay | src/a3_risk/sizing.py:117-246 | A SIZE is flagged exactly with what was not known: earnings, a short's dividend, the sector |
| Portfolio.PortfolioState | src/a3_risk/service.py:112-135 | The loop returns lane heat, notional, short heat and short notional as sums over the open rows, lanes adding up to the total |
| Portfolio.SumOfRows | src/a3_risk/service.py:112-135 | Each figure in the journal's own columns, a missing stop read as zero and a missing side as LONG |
| Portfolio.CapsHoldOverRuns | src/a3_risk/sizing.py:208-261 | Over any run of entries, fills, drops, tightenings and sell-downs, each cap is exceeded by at most the weight of the intents in flight plus stop rounding |
| Portfolio.CapsExactWhenResolved | src/a3_risk/sizing.py:208-261 | With every intent resolved before the next is sized and stops on cents, no cap is ever exceeded |
| Portfolio.OvershootsIff | src/a3_risk/sizing.py:208-267 | An intent can take more heat than the room its shares were clipped to exactly when its stop rounds away from the limit |
| Portfolio.HeatCapOvershot | src/a3_risk/sizing.py:208-267 | A sized and filled order that puts 11.00 at risk under a heat cap of 10.60 |
| Portfolio.TickCovers | src/a3_risk/sizing.py:263-267 | Half a cent per share covers the stop rounding of every sized order |
| Intents.OneIntentPerKey | src/a3_risk/service.py:561-649 | Over any deliveries there is one intent and one identical message per key exactly when some delivery was sized: the first order that committed, with its own SIZE row |
| Intents.OneRowPerOutcome | src/a3_risk/service.py:549-649 | Each delivery that committed left one row that says how it ended: VETO, SHADOW_SHORT or SIZE |
| Intents.OneIntentPerConfig | src/a3_risk/service.py:561-563 | An item revision has one intent and one message for each configuration under which it was sized |
| Intents.OneIntentPerSignalIff | src/a3_risk/service.py:561-563 | A signal has at most one intent exactly when all its sized deliveries carried the same configuration |
| Intents.NewConfigSecondIntent | src/a3_risk/service.py:561-563 | After a sized delivery, one under a new configuration leaves a second intent beside the first |
| Intents.Service.Finish | src/a3_risk/service.py:549-649 | The tail writes the row, intent and message of the settled desk, each insert skipping a taken key |
| Pacing.OneStepOnePass | src/a4_premarket/late.py:99-106 | The count drops by exactly one per cadence step, exactly while the next step is not past the open |
| Pacing.PassesAreSteps | src/a4_premarket/late.py:99-106 | The count is one more than the ten-minute steps left before the open, and one at or after it |
| Pacing.PhantomPass | src/a4_premarket/late.py:88-106 | The count is the number of firings before the open, plus one when a firing falls on the open |
| Pacing.SharesAreEven | src/a4_premarket/late.py:123-128 | Saturated shares differ by at most one, larger ones first: what is left after k passes in closed form |
| OvernightPacing.PassTakesAllowance | src/a4_premarket/late.py:236-262 | A pass cut anywhere takes at most its allowance off the budget the journal shows, and exactly that when it finishes with candidates enough |
| OvernightPacing.BudgetLastsToTheOpen | src/a4_premarket/late.py:117-128 | Over any passes, cut or not, a budget that covers the passes left keeps covering them down to the last before the open |
| OvernightPacing.SaturatedPassesLeave | src/a4_premarket/late.py:236-262 | After saturated passes the journal shows the closed form of the shares |
| OvernightPacing.SaturatedDayOfPasses | src/a4_premarket/late.py:99-262 | A saturated day of passes spends the whole budget exactly when no firing falls on the open or the budget is below the passes first counted, else it strands floor(budget / passes) |
| Forwarding.PlanSplitsAtAllowance | src/a4_premarket/late.py:109-130 | forward and rest are the candidates in (priority, msg_id) order split at the allowance, within daily and pass limits |
| Forwarding.PlanIgnoresClaimOrder | src/a4_premarket/late.py:129-130 | The plan depends only on which candidates there are |
| OvernightDesk.Desk.Transact | src/a4_premarket/service.py:112-136 | The row is added and the message only if its key is free |
| OvernightDesk.Desk.CountToday | src/a4_premarket/late.py:137-145 | The number of a day's rows with an action |
| OvernightDesk.Desk.RouteClaimed | src/a4_premarket/late.py:182-234 | Malformed messages are failed, held and unmapped ones committed and acked, the rest collected, up to the cut |
| OvernightDesk.Desk.RunLatePass | src/a4_premarket/late.py:152-287 | The pass leaves the specified journal and messages wherever it is cut, and settles its claims as planned when it finishes |
| OvernightDesk.Desk.RunSheet | src/a4_premarket/service.py:226-397 | The sheet leaves the specified journal and messages wherever it is cut; a finished one fails or acks everything it claimed |
| OvernightDesk.LatePassSettlesEveryClaim | src/a4_premarket/late.py:182-278 | Failed, acked and deferred messages together are exactly the claimed ones |
| OvernightRuns.FiringKeepsSound | src/a4_premarket/late.py:236-262 | One run cut anywhere keeps every invariant, withdraws nothing and adds at most the pass cap of LATE_CANDIDATE rows |
| OvernightRuns.RunStaysSound | src/a4_premarket/late.py:99-262 | Over any runs: unique dedup keys, a message exactly for the rows that asked, LATE_CANDIDATE rows within the daily maximum and only after that day's one SHEET row |
| OvernightRuns.OneHandoffPerItem | src/a4_premarket/service.py:373-397 | Across sheet and late passes exactly one analyst hand-off per item revision ever put forward, none for any other |
| OvernightRuns.RunKeepsFirstWriter | src/a4_premarket/service.py:389-393 | Each message keeps exactly the priority that the first row asking for it gave: the sheet's rank, or the late pass's 45 |
| OvernightRuns.FinishedPassDelivers | src/a4_premarket/late.py:182-262 | An uncut pass gets every held and unmapped item and every planned candidate to its queue, and adds exactly the planned LATE_CANDIDATE rows |
| OvernightRuns.FinishedSheetDelivers | src/a4_premarket/service.py:265-397 | An uncut sheet writes one row per candidate with the lane the reply names, sends the hand-offs and thesis items it calls for, and is done for the day |
| OvernightMail.SheetSendsIff | src/a4_premarket/service.py:261-391 | A finished sheet sends, beyond what was sent, exactly: guard items for what touches a held name, thesis items for what names no ticker or the reply gives to that lane, hand-offs for what the reply names to open; a candidate it does not name goes nowhere |
| OvernightMail.SheetWritesRow | src/a4_premarket/service.py:358-391 | The row of each candidate in turn: the lane and rank the reply gives its item, IGNORE at rank 50 when it is not named |
| OvernightMail.PassRunsIff | src/a4_premarket/late.py:88-97 | A late pass runs exactly between today's SHEET row and today's open |
| OvernightMail.PassSendsIff | src/a4_premarket/late.py:152-288 | A finished late pass sends, beyond what was sent, exactly what routing sends and the hand-offs of the candidates it forwards |
| OvernightMail.PoolIsClaimed | src/a4_premarket/late.py:152-235 | The candidates are exactly the claimed messages that name an item and a ticker and touch nothing held, with their own ids and priorities |
| OvernightMail.ForwardsMostUrgent | src/a4_premarket/late.py:109-135 | By the claimed messages' own priorities and ids, whatever is forwarded outranks whatever is left, and it is forwarded in that order |
| OvernightMail.RunCarriesClaims | src/a4_premarket/service.py:261-391 | In a run cut anywhere every new row is dated its day and every new message carries what was claimed: a message routing sends there, or a candidate of that key |
| OvernightSlots.PassBuysIff | src/a4_premarket/late.py:242-262 | The slots a pass spends, cut anywhere, buy a hand-off each exactly when none of its candidates has one already and none comes twice |
| OvernightSlots.SlotPerHandoffIff | src/a4_premarket/late.py:236-262 | Over any runs there are as many hand-offs as rows that put an item forward exactly when no item revision was put forward twice |
| OvernightSlots.CutPassCounts | src/a4_premarket/late.py:242-262 | A pass cut anywhere adds one LATE_CANDIDATE row per candidate it got to |
| Emission.EmitsIffEligibleWithRoom | src/c10_scanner/rules.py:308-355 | The two looks emit exactly an eligible candidate while there is room |
| Emission.ScanIsGreedy | src/c10_scanner/service.py:503-537 | A scan emits the first eligible survivors in rank order, as many as there is room for; one that a rollback ends emits a beginning of these |
| Emission.ByScoreRanks | src/c10_scanner/service.py:503 | Survivors are taken in descending score, none lost |
| Emission.EmittedOutrankTheRest | src/c10_scanner/service.py:503-537 | No eligible survivor left out outscores one that was emitted |
| Emission.EarlyWindowHoldsOnlyDownMovers | src/c10_scanner/service.py:514-529 | The early flag changes only the verdict of down-movers, and holds back all of them |
| Emission.EarlyScanIdleIff | src/c10_scanner/service.py:503-537 | A scan in the early window starts no emission exactly when it has no room or every survivor is below the score floor or a pre-checked down-mover |
| Emission.UpMoverEmittedEarly | src/c10_scanner/service.py:514-529 | A scan that emits an up-mover in the early window |
| Emission.FilteredAndCapped | src/c10_scanner/rules.py:336-354 | When a reject is a quality filter and when it is a cap |
| Emission.ReasonSays | src/c10_scanner/rules.py:325-355 | The reason a verdict carries, for every combination of score, move, caps, borrow answer and early window |
| EmissionRuns.ScanFitsItsReading | src/c10_scanner/service.py:386-387 | A scan adds no more than the per-scan cap and than the day and the hour it read leave free |
| EmissionRuns.ProceedsIff | src/c10_scanner/service.py:385-400 | A cycle journals exactly when it may run and the day has room left or is still observed |
| EmissionRuns.ReadingSays | src/c10_scanner/service.py:107-126 | A scan reads the EMITTED rows of its day and those later than an hour before it counts them |
| EmissionRuns.CapsHoldOverRuns | src/c10_scanner/service.py:503-537 | Over any scans every sliding hour, every day and every scan stay within their caps, although the hour is read once per scan |
| EmissionJournal.QueueMatchesRowsIff | src/c10_scanner/service.py:198-217 | Over any run of one process, rollbacks included, an item is queued exactly when it has its one EMITTED row, if and only if no name whose emission rolled back that day was emitted again |
| EmissionJournal.QueueOutgrowsRows | src/c10_scanner/service.py:340-357 | The queue of a day is its EMITTED rows plus exactly the names emitted again after a rollback |
| EmissionJournal.QueueCapIff | src/c10_scanner/service.py:503-537 | The daily cap holds for the queue exactly when those names fit beside the rows, so always when there are none |
| EmissionJournal.QueueHourIff | src/c10_scanner/service.py:503-537 | Any sliding hour of the queue keeps the hourly cap exactly when the names queued without a row fit beside the rows of that hour, so always when none rolled back is emitted again |
| EmissionJournal.EverySurvivorJournaled | src/c10_scanner/rules.py:288-305 | Every measured survivor of a finished scan has a row for the day afterwards, emitted or not, also once the daily cap is spent, save names whose emission of that day rolled back before |
| EmissionJournal.RolledBackEmitBreaksCap | src/c10_scanner/service.py:204-207 | Three scans that queue two items on a day whose cap is one |
| Scanner.Scanner.JournalCandidate | src/c10_scanner/service.py:198-217 | The first occurrence per day, ticker, status and reason is written, later ones are not |
| Scanner.Scanner.CountEmitted | src/c10_scanner/service.py:108-126 | EMITTED rows of a day or of a trailing hour |
| Scanner.Scanner.EmissionLoop | src/c10_scanner/service.py:504-537 | The loop journals, queues, counts and stops at a rolled-back emission as the scan function says |
| Scanner.Scanner.RunCycle | src/c10_scanner/service.py:363-537 | A whole cycle from the daily count to the last survivor |
| Cooloff.CalendarDaysIsLeastCover | src/c10_scanner/rules.py:367-372 | The window is exactly the shortest that holds the asked-for weekdays from any starting day |
| Cooloff.HoldsSessionsIff | src/c10_scanner/rules.py:367-372 | With any holidays and from any day, the window holds the sessions exactly when it loses no more weekdays to holidays than it has to spare |
| Cooloff.SpareIsSmall | src/c10_scanner/rules.py:367-372 | Whole weeks have nothing to spare, any other window two weekdays at most |
| Cooloff.HolidayLeavesItShort | src/c10_scanner/rules.py:367-372 | From any Saturday, for any number of sessions, a holiday on the Monday leaves the window one session short |
| Guard.VerdictIsFirstAcceptable | src/a12_guard/service.py:262-288 | The retry loop ends in a verdict exactly when an acceptable reply comes before a dead server, and never holds a broken thesis |
| GuardExits.VerdictIsReply | src/a12_guard/service.py:262-290 | A conversation ends in a verdict exactly when some reply is usable before the server dies, and then it is the first such reply |
| Guard.RunStaysSound | src/a12_guard/service.py:248-332 | Over any deliveries and cuts: one position-level row per signal, revision and position, one ledger line per verdict, exits armed exactly by the ledger lines that say so, a message written off at most once |
| Guard.FinishedDeliveryDecidesOnce | src/a12_guard/service.py:248-305 | After any history, a finished delivery with the model reachable leaves exactly one row per live position |
| Guard.TurnAlertsIff | src/a12_guard/service.py:250-305 | A turn adds a message-level row exactly when the server dies on a position not yet decided, which it leaves undecided |
| Guard.RunCountsAlerts | src/a12_guard/service.py:176-341 | Over any run the message-level rows of a message are exactly its alerting turns and its one writing off if that came first |
| Guard.ReachedMeansOneRow | src/a12_guard/service.py:212-246 | Without a dead server a message gets at most one message-level row, however often it comes |
| Guard.WrittenOffUnjudged | src/a12_guard/service.py:212-246 | A stale message, one without a live position or one met by a sleeping server gets one message-level row, at most once, and touches no other table |
| Guard.MarksAreBooked | src/a12_guard/service.py:141-156 | A position is marked for exit exactly when an auto-executed ledger line names it, and the mark is that line's decision |
| GuardExits.TurnArmsIff | src/a12_guard/service.py:249-332 | A turn arms an exit exactly when the position was undecided, a usable reply came, the gate said execute and the position was still open; and which row and ledger line each turn writes |
| GuardExits.RunArmsExactly | src/a12_guard/service.py:308-332 | Over any run the armed exits are exactly those of the turns that fire, in turn, each with its verdict row |
| GuardExits.ClosedGateArmsNothing | src/a12_guard/service.py:308-332 | A delivery whose turns all have a closed gate leaves events and marks as they were and adds no auto-executed ledger line |
| GuardExits.MessageRowSays | src/a12_guard/service.py:212-246 | EXPIRED for old news, else NO_POSITION, else ALERT_ONLY when the server sleeps; none if the message has such a row |
| GuardService.Service.ExistingDecision | src/a12_guard/service.py:107-125 | The lookup finds a row for the signal, revision and position or message level |
| GuardService.Service.ArmGuardExit | src/a12_guard/service.py:141-156 | Mark and event only while the position is open |
| GuardService.Service.Ask | src/a12_guard/service.py:262-288 | The retry loop returns the specified conversation |
| GuardService.Service.JudgePosition | src/a12_guard/service.py:250-332 | One position's turn: skipped, alerted, rejected or judged with its ledger line |
| GuardService.Service.HandleMessage | src/a12_guard/service.py:197-341 | The handler leaves the specified tables, up to the position at which it dies |
| Suppression.PriorIsLatest | src/a1_triage/suppression.py:77-104 | The lookup returns the most recent verdict inside the window, or nothing exactly when there is none |
| Suppression.SuppressedIff | src/a1_triage/service.py:109-140 | An item is suppressed exactly when suppression is on, it is a plain repeat and the last verdict of the story still shields it |
| Suppression.RowSays | src/a1_triage/service.py:167-239 | Each item earns one row at its own time and outlet count: SUPPRESS, or what the model said, REJECT when nothing usable; a verdict is a row that was not suppressed and had a usable reply |
| Suppression.PlainRepeatIff | src/a1_triage/service.py:117-140 | A plain repeat that does not cross is triaged again exactly when the full window has passed since the last verdict, or that is a DISCARD and the discard window has |
| Suppression.InsideEscalateWindowIff | src/a1_triage/suppression.py:62-104 | Inside an ESCALATE's window a plain repeat is triaged exactly when the last verdict is a DISCARD older than the discard window |
| Suppression.NoPriorIff | src/a1_triage/suppression.py:77-104 | An item goes through for lack of a prior exactly when no verdict lies in its window |
| Suppression.OneCrossingVerdict | src/a1_triage/suppression.py:107-111 | With outlet counts that never fall, the corroboration exception yields at most one verdict in a run |
| Suppression.PlainVerdictsAreSparse | src/a1_triage/service.py:109-165 | n verdicts on plain repeats span at least n - 1 times the shorter window |
| Suppression.DiscardEndsEscalateWindow | src/a1_triage/suppression.py:83-97 | A later DISCARD replaces an ESCALATE as the prior and shortens its window |
| Suppression.RejectsNeverSuppress | src/a1_triage/service.py:184-193 | If no reply validates, every item of the story reaches the model |
| Suppression.Triage.FindPriorVerdict | src/a1_triage/suppression.py:77-104 | The backward search returns the specified prior |
| Suppression.Triage.SuppressRepeat | src/a1_triage/service.py:109-165 | Journals a SUPPRESS row and stops exactly when the item is suppressed |
| Suppression.Triage.Handle | src/a1_triage/service.py:167-239 | Appends the one row the item earns |
| ThesisStore.RunKeepsCounted | src/a5_thematic/store.py:59-93 | Over any writes evidence_count is the number of distinct log rows of the thesis |
| ThesisStore.ClosedIsFrozen | src/a5_thematic/store.py:96-109 | A thesis that left ACTIVE never changes status or confidence again |
| ThesisStore.EveryOfferCountsOnce | src/a5_thematic/store.py:74-93 | Over any writes a thesis ends with exactly the item revisions it had and those offered to it, each counted once, ACTIVE or closed |
| ThesisStore.Store.CreateThesis | src/a5_thematic/store.py:53-71 | The next id of the sequence, ACTIVE, without evidence |
| ThesisStore.Store.AddEvidenceRow | src/a5_thematic/store.py:74-93 | Logged once per thesis, item and revision, counted with it; false when already there |
| ThesisStore.Store.SetStatusOf | src/a5_thematic/store.py:96-102 | Moves the status of an ACTIVE thesis only |
| ThesisStore.Store.SetConfidenceOf | src/a5_thematic/store.py:105-109 | Moves the confidence of an ACTIVE thesis only |
| Thematic.ClaimSettles | src/a5_thematic/service.py:390-418 | Accepted, failed and left messages are exactly the queue; accepted items are distinct and at most top_k |
| ThematicWrites.ClaimFate | src/a5_thematic/service.py:390-418 | A message stays queued once the batch is full, fails when malformed or about an item named before, and is accepted otherwise, a missing revision being the first |
| Thematic.ResolveKeepsLastOp | src/a5_thematic/service.py:268-302 | An addressable item that anchors nothing keeps the last op named for it, evidence for an unknown thesis becoming an ignore; nothing else has an op |
| Thematic.DowngradesMisdirected | src/a5_thematic/service.py:289-297 | The downgrade count is the number of ops that attach an addressable item anchoring nothing to a thesis that was not loaded |
| Thematic.TallyByFate | src/a5_thematic/service.py:516-573 | Each counter counts the items with its fate |
| Thematic.EveryItemCountedOnce | src/a5_thematic/service.py:516-573 | processed = distinct anchors + evidence + ignored_explicit + ignored_unaddressed + wide_ignored |
| Thematic.EveryClaimAcked | src/a5_thematic/service.py:487-573 | On the success path the acked messages are exactly those of the lane items |
| ThematicRun.NightConserves | src/a5_thematic/service.py:389-573 | A rejected night fails every claim, acks none and writes nothing; any other acks exactly the accepted ones, fails only malformed and duplicate ones and counts every item once |
| ThematicWrites.RejectedIff | src/a5_thematic/service.py:456-479 | A night is rejected exactly when no usable reply came although something was listed or, in a deep run, some thesis was ACTIVE; a quiet night without a reply changes nothing |
| ThematicRun.NightTouchesOnlyKnown | src/a5_thematic/service.py:482-607 | Whatever the model replies, only theses loaded as ACTIVE change, and the counts stay right |
| ThematicWrites.NightLogsIff | src/a5_thematic/service.py:516-560 | A thesis that was there gains exactly the item revisions whose last op attaches them to it while it is ACTIVE and which anchor nothing |
| ThematicWrites.NightReviews | src/a5_thematic/service.py:575-609 | An ACTIVE thesis ends as its first closing review says, at the confidence of its last review before that |
| ThematicWrites.NightDates | src/a5_thematic/store.py:74-93 | A thesis that gained evidence has the night's date as its last evidence, any other keeps its own |
| ThematicWrites.CreatedStarts | src/a5_thematic/store.py:59-93 | A created thesis starts ACTIVE at its spec's confidence with one piece of evidence dated by the night |
| ThematicNights.UncutIsWhole | src/a5_thematic/service.py:487-609 | A night that is not cut writes and acks what the whole run writes and acks |
| ThematicNights.CutNightsKeepCounted | src/a5_thematic/service.py:487-573 | However nights are cut and redelivered, an item revision is evidence for a thesis at most once and the counts are right |
| ThematicNights.MadeTheses | src/a5_thematic/service.py:487-514 | Over any nights cut at any commit or ack, the new theses are exactly the committed specs: successive new ids in order, each with its anchor, at the revision listed, as its first evidence |
| ThematicAnchors.ThesesPerAnchor | src/a5_thematic/service.py:487-514 | As many new theses have an item as their first evidence as the nights' committed specs name it, duplicates in one reply included |
| ThematicAnchors.UnackedIff | src/a5_thematic/service.py:489-512 | The message of a night's anchor stays unacked exactly when the night died between the commit of its first thesis for that anchor and the ack |
| ThematicAnchors.NightClaims | src/a5_thematic/service.py:389-438 | What a night claims and reads beside the lane is what the queue may hand out: distinct items on distinct messages none of which was acked |
| ThematicAnchors.SecondThesisIff | src/a5_thematic/service.py:286-287 | Over any nights a queue may feed, an item comes to anchor more than one new thesis exactly when some reply's committed specs name it twice or a later night that lists it, as a wide item or on an unacked message, names it again |
| ThematicAnchors.NamedOnTwoNights | src/a5_thematic/service.py:132-180 | Two theses for a lane item whose night died before the ack, for an item back on another message and for one read again as a wide item |
| ThematicAnchors.NamedTwiceInOneReply | src/a5_thematic/schema.py:60-87 | Two theses from one reply that names an item twice, in a night that is not cut |
| ThematicService.ClaimLane | src/a5_thematic/service.py:390-418 | The claim loop |
| ThematicService.Resolve | src/a5_thematic/service.py:289-299 | The op loop builds the specified map and downgrade count |
| ThematicService.CreateWithAnchor | src/a5_thematic/service.py:490-509 | One transaction mints a thesis under the next id with its anchor as evidence |
| ThematicService.CreateTheses | src/a5_thematic/service.py:487-514 | Each valid spec takes the next id and its anchor as evidence, and the anchor's message is acked |
| ThematicService.DisposeItem | src/a5_thematic/service.py:522-573 | One item attached, ignored or passed over, and acked if it was claimed |
| ThematicService.ReviewTheses | src/a5_thematic/service.py:575-609 | Reviews move confidence or status as named |
| ThematicService.RunNight | src/a5_thematic/service.py:389-609 | The whole night leaves the specified store and outcome |
| FactSheet.SheetIsTrimmedToFit | src/a13_chat/retrieval.py:244-262 | For any size function and budget the result fits or has no list longer than one row; lists are what repeated halving leaves of the originals and non-empty if those were, other packs are unchanged, and the note names exactly the shortened packs |
| FactSheet.EveryCutWasNeeded | src/a13_chat/retrieval.py:244-262 | Every cut was made on a sheet still over budget and halved its longest list, the first among equals |
| FactSheet.TruncateFactSheet | src/a13_chat/retrieval.py:244-262 | The loop terminates, since the total number of rows falls, with the specified sheet |

## Left out

- Portfolio.CapsHoldOverRuns: the heat caps hold up to the stop's rounding of half a cent per share, because the code sizes on the unrounded distance; fills are at the limit price.
- Suppression.PlainRepeatIff: takes items of one cluster in time order; cluster membership is fixed over a run.
- OvernightRuns.RunStaysSound: runs follow one another; two consumers at work on the same message at the same instant are not modelled.
- Guard.RunStaysSound: the same.
- EmissionJournal.QueueMatchesRowsIff: speaks of one process; a restart forgets what rolled back, and a reject whose own insert fails is not modelled.
- ThematicAnchors.SecondThesisIff: which items a later reply names is up to the model, so the condition is read off the replies; a rejected night, which writes and acks nothing, is a night of no steps.
- Updates of a single bucket, position or thesis are updates of a value held in a sequence or map; aliasing between the code's dictionaries and records is not modelled.
- `ret`, `vol_mult`, `atr5m_before`, `merge_universe` and the scalp tool's report text.
- Floating-point rounding, time zones and daylight-saving changes.
- The numbers dictionaries that sizing journals; the discretion call, exit-policy texts and the shadow-short counterfactual.
- `filter_candidate`, scoring, news ownership, cool-off and static rejects before the emission loop; the scan sees what passed them.
- Which candidates the sheet's model opens: any reply at all is allowed, and the deterministic fallback is one such reply. The order in which the sheet disposes of candidates is a parameter.
- The auto-execute gate, the router and the materiality rules: their answers are inputs.
- Bulk expiry, staleness expiry, digests, emails, health rows and log lines.
- Queue internals (claim, fail with backoff, dead letter, reaping): a claim hands over any messages, and any that were not acked may come back.
- A negative `late_pass_max`, which Python would read as a slice from the end.
- The hash behind the intent id, which is taken to tell different inputs apart.
- In `truncate_fact_sheet`, the place of the `_truncated` entry among the keys, which only the size function could see.
