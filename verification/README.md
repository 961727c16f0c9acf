# Verified model of the shadow-trading engines

The lab watches the market, paper-trades what it sees and grades the result every night. This
project models the deterministic engines that the nightly verdict rests on, each in the form the
program gives it: objects whose methods update fields, loops over lists and characters, and pure
functions. Every object method is proved against a specification function of the old state, and
the promises are proved about that function over all inputs and all runs.

| engine | program | files |
|---|---|---|
| bar builder | ticks folded into one-minute bars, with an incremental session context | `Bars`, `LiveBarBuilder`, `BarContext`, `BarStreaming`, `BarSpread` |
| request budget | sliding 60-second cap on requests | `RequestBudget` |
| stalker | the seven-state engine that waits for a pullback, a touch and a trigger | `StalkerRules`, `Stalker`, `StalkerPath`, `StalkerKnife`, `StalkerFlush`, `StalkerPivot`, `StalkerFire`, `StalkerDefaults`, `StalkerTaper`, `StalkerGates`, `StalkerCauses` |
| grader | quarantine, pooling and evidence per cohort | `ExitRows`, `Grader`, `GraderAudit`, `GraderRules`, `FillMath` |
| betting evidence | wealth of the averaged betting fractions, over probability trees and over nights | `EProcess`, `PremiumBound`, `NightlyEvidence`, `NightlyHistories` |
| reply reader | extraction and repair of JSON in model replies (RFC 8259 sections 4 to 7) | `JsonText`, `JsonExtract`, `JsonRepair`, `JsonUnique`, `JsonReply` |
| shadow book | open positions over an append-only ledger, and the thesis memory | `LedgerRules`, `OptionsShadow`, `SignalAdmission`, `PositionLifecycle`, `Thesis` |
| news tap | cursor and bounded memory against repeats | `NewsTap`, `NewsArchive` |
| rate gate | the shared token bucket and its waiting loop | `TokenBucket`, `RateGate` |

Floats are real numbers, None and the NaN of a bar or of a net are explicit values, clocks are
nondecreasing inputs, and `round(...)` is display only.

## Where the code does less than it says

Each of these is a lemma with an exact condition or a concrete input.

- **A fence inside a value truncates it.** In a fenced reply the value is cut at its first three
  backquotes, also inside a string. Recovery holds if and only if no second fence stands in the rest
  of the prefix or in the value (`JsonExtract.ExtractRecovers`); the array of the one string of three
  backquotes is such a reply (`JsonExtract.FencedStringIsLost`).
- **A locked entries file empties the book.** The rebuild reads only the exits file strictly; the
  entries, the merges and the day count go through reads that take an unreadable file for an empty
  one. A roll that reads the exits but not the entries tracks nothing, restarts the ids of the day
  at 0 and is latched. In a concrete run the same signal then enters a held exposure again, within the
  same minute under the same id, later under a new one, and the next readable roll tracks one exposure
  twice (`PositionLifecycle.LockedEntriesBreakBook`). A roll keeps memory and ledger in agreement if and
  only if every read that failed had nothing to give, and a whole run does if and only if all its
  rolls do (`PositionLifecycle.RollKeepsIff`, `PositionLifecycle.RunKeepsIff`).
- **A late exit row rewrites the evidence of earlier nights.** Grading sorts by time stamp, so a
  row written later with an earlier stamp moves in front. What is kept one night is a prefix of what
  is kept with one row more if and only if the row is malformed, repeats a position no earlier than
  its kept row, or comes no earlier than every kept row (`NightlyEvidence.LateRowIff`). Otherwise a
  night can see a wealth that no prefix of the final returns has
  (`NightlyHistories.LateRowEscapes`), and the bound for all nights does not cover it. All of this is so
  for the pooled evidence and for that of a lane.
- **A burst stops the news tap for good.** A poll with news waiting moves the cursor if and only if
  the overlap window holds fewer items than the poll limit; otherwise the same items are fetched for
  ever (`NewsArchive.PollAdvancesIff`, `NewsArchive.StuckForever`, `NewsArchive.BurstStopsTap`). The
  comment says that a burst is caught up across successive polls.
- **The memory against repeats holds if and only if it is at least as large as the poll limit.** Then
  every output is one unbroken stretch of the archive (`NewsArchive.OutputIsStretch`); a larger limit
  lets an item be forgotten and appended again (`NewsArchive.NoRepeatsIff`). The defaults are 200
  and 5000.
- **A lane bets a trade once for every time its row names the lane** (`GraderAudit.LaneOnceIff`). The
  book never names a lane twice, whatever its reads (`PositionLifecycle.RunTidy`).
- **Seeding history at or past the forming minute breaks the order of bars.** `seed_bar` looks at the
  last committed minute only (`BarContext.SeedSoundIff`, `BarContext.LateSeedBreaksOrder`,
  `BarContext.LateSeedHappens`).
- **The 1/c bound needs returns of at least -1**, which the comment takes from the long option. Exit
  rows carry no contract count while their net is scaled by it, so the bound on a built row holds if and
  only if the position is at most one contract (`FillMath.LossBoundedIff`), and with losses of up to
  k premiums the 1/c bound holds on every plan if and only if k is at most 1: four fair trades of two
  contracts already break it (`PremiumBound.BoundIffOneContract`). The book only ever enters one.
- **A stop is under the lows of its pattern exactly when the buffer times the volatility estimate is
  positive** (`StalkerFlush.ReclaimTrigger`, `StalkerPivot.HigherLowTrigger`), and the target is above
  the close when the reward floor exceeds the tolerance (`StalkerFire.FireIsSound`).

## Model

| member | source | states |
|---|---|---|
| `LiveBarBuilder.SymState.Commit` | atlas/hunter/feed.py:115-138 | the one commit path: exactly the specified new context, for live and seeded bars alike |
| `LiveBarBuilder.SymState.Roll` | atlas/hunter/feed.py:140-149 | closing a bucket hands out its bar with a volume that is never negative and moves the base; without a bucket nothing changes |
| `LiveBarBuilder.SymState.SeedBar` | atlas/hunter/feed.py:152-158 | a seeded bar is committed unless its minute is already covered |
| `LiveBarBuilder.SymState.OnTick` | atlas/hunter/feed.py:160-193 | the whole new state and the bars completed by a tick, in every branch |
| `LiveBarBuilder.SymState.BarInput` | atlas/hunter/feed.py:195-205 | the view is for the minute asked for, with the context stored at its commit, or a flat one |
| `LiveBarBuilder.ViewIsBatchContext` | atlas/hunter/feed.py:195-205 | the view of a committed bar carries the context recomputed over exactly the bars up to it, however many came after |
| `LiveBarBuilder.FormingNeverLeaks` | atlas/hunter/feed.py:210-219 | in a sound session the bars handed out rise strictly in time and the forming minute is after all of them |
| `BarContext.ContextIsUnique` | atlas/hunter/feed.py:115-138 | the batch definition of a bar's context determines it, spread aside |
| `BarContext.CommitExact` | atlas/hunter/feed.py:115-138 | after a commit every sum, running low, session high and stored snapshot is what recomputation over its own prefix gives |
| `BarContext.TickSound` | atlas/hunter/feed.py:160-193 | a tick keeps the context exact and the forming minute younger than every bar |
| `BarContext.LateTick` | atlas/hunter/feed.py:160-193 | a tick of a covered minute moves the volume mark only, one older than the forming bucket or without a price leaves no trace |
| `BarContext.SeedSoundIff` | atlas/hunter/feed.py:152-158 | a seed keeps that if and only if it is ignored, nothing forms, or it is older than the forming bucket |
| `BarContext.LateSeedBreaksOrder` | atlas/hunter/feed.py:152-171 | otherwise the next rollover commits minutes out of order |
| `BarContext.LateSeedHappens` | atlas/hunter/feed.py:152-193 | a reachable case: one tick, one seed for its minute, one tick of the next minute |
| `BarContext.RunSound` | atlas/hunter/feed.py:115-193 | over every run of ticks and in-order seeds the whole context equals recomputation |
| `BarContext.RunCausal` | atlas/hunter/feed.py:211-219 | later ticks and seeds never change a committed bar or a stored snapshot |
| `BarContext.SeedingReproduces` | atlas/hunter/feed.py:115-117 | seeding the committed bars into a new builder gives the same context, spread aside |
| `BarStreaming.AcceptedIff` | atlas/hunter/feed.py:164-189 | the builder's per-tick test accepts exactly the ticks no earlier readable tick has overtaken |
| `BarStreaming.StreamingRefinesBatch` | atlas/hunter/feed.py:160-193 | on every tick sequence the committed bars are the batch bars of the accepted ticks, the last minute left out |
| `BarStreaming.EmittedOnce` | atlas/hunter/feed.py:167-172 | each bar is handed out once, in order, by a tick of a strictly later minute |
| `BarStreaming.VolumeConserved` | atlas/hunter/feed.py:140-192 | bar volumes plus the pending amount never exceed the rises of the day volume, equal last minus first when it never falls, and are never negative |
| `BarSpread.SnapshotSpread` | atlas/hunter/feed.py:160-193 | on every tick sequence the current spread is that of the last tick accepted, and each committed minute keeps the spread of its own last tick |
| `BarSpread.SeedSpread` | atlas/hunter/feed.py:152-158 | a seeded bar carries the spread current when it is seeded |
| `BarSpread.WiderSpreadCounts` | atlas/hunter/feed.py:182-188 | two ticks in one minute, and the second spread is the one kept |
| `RequestBudget.HunterFeed.constructor` | atlas/hunter/feed.py:239-243 | the cap is at least one and the queue starts empty |
| `RequestBudget.HunterFeed.BudgetOk` | atlas/hunter/feed.py:245-253 | the answer and the new queue, pruned at the head and extended by the cost |
| `RequestBudget.WindowBound` | atlas/hunter/feed.py:245-253 | no closed 60-second window holds more than the cap of granted units |
| `RequestBudget.GrantedIffItFits` | atlas/hunter/feed.py:245-253 | a call is granted if and only if its units fit beside all grants of the last 60 seconds |
| `Stalker.StalkerFSM.constructor` | atlas/hunter/stalker.py:137-150 | a new engine is armed with nothing under watch |
| `Stalker.StalkerFSM.Emit` | atlas/hunter/stalker.py:153-155 | one event from the present state, which becomes its target |
| `Stalker.StalkerFSM.Screen` | atlas/hunter/stalker.py:182-202 | the universal aborts, in order, with the wide-spread counter |
| `Stalker.StalkerFSM.Knife` | atlas/hunter/stalker.py:204-216 | the knife rule with its counter of closes below the zone |
| `Stalker.StalkerFSM.Approach` | atlas/hunter/stalker.py:218-230 | pullback, first touch, and the gap through the zone |
| `Stalker.StalkerFSM.AdvanceG1` | atlas/hunter/stalker.py:241-261 | flush bookkeeping, staleness and the reclaim |
| `Stalker.StalkerFSM.AdvanceG2` | atlas/hunter/stalker.py:263-295 | which half of the second grammar runs |
| `Stalker.StalkerFSM.SeekPivot` | atlas/hunter/stalker.py:268-279 | the confirmed micro pivot opens an episode |
| `Stalker.StalkerFSM.FollowPivot` | atlas/hunter/stalker.py:280-295 | resets, ratchets, the break and the interim high folded in afterwards |
| `Stalker.StalkerFSM.TryFire` | atlas/hunter/stalker.py:298-337 | every gate, and the intent of a fire |
| `Stalker.StalkerFSM.Watch` | atlas/hunter/stalker.py:175-230 | everything a bar does before the grammars |
| `Stalker.StalkerFSM.Step` | atlas/hunter/stalker.py:174-235 | one bar: the new state, and exactly the events it added come back |
| `StalkerPath.EventsArePath` | atlas/hunter/stalker.py:153-337 | in every run the events are a connected strictly forward path from Armed of at most four, Fired is entered only from Confirming, and a fire is recorded exactly when Fired |
| `StalkerPath.TerminalAbsorbs` | atlas/hunter/stalker.py:170-176 | later bars only add events, and change nothing once a terminal state is reached |
| `StalkerPath.SeenIsPrefix` | atlas/hunter/stalker.py:174-179 | the bars looked at are the first ones fed, all of them while the run is live |
| `StalkerPath.RunBooks` | atlas/hunter/stalker.py:143-145 | the counter counts them and the bounded buffer holds the latest |
| `StalkerKnife.RunScreens` | atlas/hunter/stalker.py:182-202 | a run still standing saw no halted, defensive or late bar, and no run of wide spreads as long as the limit; the counter is the trailing run length |
| `StalkerKnife.RunFloor` | atlas/hunter/stalker.py:204-230 | in every engaged or fired run the floor held since the very bar with which the run came to touch the zone, the counter being the trailing run of closes below it |
| `StalkerKnife.KnifeSafety` | atlas/hunter/stalker.py:204-230 | a fired run had no knife close from its touch bar to the trigger and never too many closes in a row below the zone |
| `StalkerFire.TryFireSound` | atlas/hunter/stalker.py:298-337 | what a successful trigger leaves behind, with prices consistent with the reward to risk |
| `StalkerFire.SortedRises` | atlas/hunter/stalker.py:157-159 | the median is read off the volumes in rising order, none lost or added |
| `StalkerFire.BufferServesMedian` | atlas/hunter/stalker.py:143-145 | the bounded buffer gives the volume gate the same median as the whole history |
| `StalkerFire.FireIsSound` | atlas/hunter/stalker.py:298-337 | every fire of every run belongs to the last bar looked at, which passed every gate, with stop below close and reward to risk at the floor within tolerance |
| `StalkerGates.VolMedianIs` | atlas/hunter/stalker.py:157-159 | the volume a trigger is measured by is the median of the volumes of the bars just before it, as many as the window takes |
| `StalkerGates.FiresIff` | atlas/hunter/stalker.py:298-337 | a trigger fires if and only if minute, chase line, body, median volume, dry-up, stop distance, stop share and spread all allow it, and what it then records |
| `StalkerGates.StopForIs` | atlas/hunter/stalker.py:316 | the stop is the anchor less the buffer |
| `StalkerGates.ReclaimFiresIff` | atlas/hunter/stalker.py:241-261 | the first grammar fires if and only if its flush is fresh and reclaimed at the right depth on its volume, and every gate allows it |
| `StalkerGates.BreakFiresIff` | atlas/hunter/stalker.py:280-295 | the second fires if and only if the bar does not undercut the episode for good, closes green above its high, and every gate allows it |
| `StalkerGates.BufferHolds` | atlas/hunter/stalker.py:143-145 | the buffer is the last bars of the history, five more than the longest look back |
| `StalkerTaper.TaperIff` | atlas/hunter/stalker.py:161-168 | the dry-up gate on bar numbers: too few bars that closed below their open, or the last ones traded less together than as many before |
| `StalkerTaper.FireTapers` | atlas/hunter/stalker.py:161-168 | it held for the buffer of every run that fired |
| `StalkerTaper.NoFireWithoutTaper` | atlas/hunter/stalker.py:312-314 | a trigger without it changes nothing |
| `StalkerTaper.TaperDecides` | atlas/hunter/stalker.py:161-168 | two runs alike but for the order of their volumes: falling volume fires, rising volume does not |
| `StalkerCauses.StopsIff` | atlas/hunter/stalker.py:182-230 | which bars abort a live stalk, and which let it expire: both exactly |
| `StalkerCauses.ReachesIff` | atlas/hunter/stalker.py:218-235 | where a stalk that goes on stands after the bar: armed until a pullback, stalking until the bar reaches into the zone, then in touch or fired |
| `StalkerCauses.ConfirmsIff` | atlas/hunter/stalker.py:241-279 | a touched stalk stays touched if and only if no flush opens and no pivot is confirmed |
| `StalkerCauses.CountersAre` | atlas/hunter/stalker.py:188-216 | the counters of wide spreads and of closes below the zone after every bar |
| `StalkerCauses.StepCauses` | atlas/hunter/stalker.py:182-337 | every event of a step has the from, the to and the cause on the bar that its reason says |
| `StalkerCauses.RunCauses` | atlas/hunter/stalker.py:174-337 | so has every event of every run, in one of the bars fed |
| `StalkerFlush.NewLowVolumeCovers` | atlas/hunter/stalker.py:245-250 | the volume a reclaim must beat is at least that of the first bar and of each new-low bar of the window |
| `StalkerFlush.TrackKeeps` | atlas/hunter/stalker.py:244-250 | the flush carries the minimum low and the largest new-low volume of all bars since it opened |
| `StalkerFlush.RunFlush` | atlas/hunter/stalker.py:241-261 | that holds in every run, for at most `reclaimMaxBars` bars |
| `StalkerFlush.ReclaimTrigger` | atlas/hunter/stalker.py:241-261 | every reclaim fire: the bar with which the run opened the flush, a flush standing ever since, window length, minimum low, volumes beaten, depth band, and the stop below every low if and only if the buffer is positive |
| `StalkerPivot.BufferedPivot` | atlas/hunter/stalker.py:270-275 | a micro pivot in the buffer is one in the history, at the same distance from the end |
| `StalkerPivot.OpensIff` | atlas/hunter/stalker.py:266-279 | an episode opens if and only if the last bar confirms a pivot of the buffer, on its low and the highest high since |
| `StalkerPivot.FollowsIff` | atlas/hunter/stalker.py:280-295 | a bar that undercuts the reference by more than the allowance ends the episode, any other is taken into its lows and its high |
| `StalkerPivot.EpisodeGrows` | atlas/hunter/stalker.py:281-295 | through every ratchet the reference is the lowest low from the pivot on and the interim high the highest high after it |
| `StalkerPivot.RunPivot` | atlas/hunter/stalker.py:263-295 | that holds in every run, resets included |
| `StalkerPivot.HigherLowTrigger` | atlas/hunter/stalker.py:263-295 | every higher-low fire: the run opened its episode when the pivot was confirmed and kept it to the trigger, the close beats every high strictly between the two, and the stop is below every low from the pivot on if and only if the buffer is positive |
| `StalkerDefaults.DefaultTrigger` | atlas/hunter/stalker.py:40-67 | with the shipped parameters stop < close < target, and the stop is under the lows of its pattern |
| `StalkerDefaults.ReclaimCanFire` | atlas/hunter/stalker.py:241-261 | a two-bar run that fires the reclaim grammar under the shipped parameters |
| `StalkerDefaults.HigherLowCanFire` | atlas/hunter/stalker.py:263-295 | a six-bar run that fires the higher-low grammar under them |
| `EProcess.EprocessWealth` | scripts/grade_options_shadow.py:82-92 | the loops compute the mean of the three compounded fractions, 1 on no trade |
| `EProcess.Compound` | scripts/grade_options_shadow.py:88-90 | the inner loop is the product of the settled factors |
| `EProcess.WealthIsMean` | scripts/grade_options_shadow.py:82-92 | the wealth is the mean of any three books that put 5, 10 and 20 percent of themselves on every trade, losing at most the stake and winning at most twice it |
| `EProcess.FactorIsLinear` | scripts/grade_options_shadow.py:90 | the floor of the code never binds: a factor lies between 0.8 and 1 + 2 lambda and is linear in the clamped return |
| `EProcess.UnlockNeedsTrades` | scripts/grade_options_shadow.py:54-56 | however large the wins, the pilot bar takes seven trades and the live bar twelve |
| `EProcess.NullIsUnfavourable` | scripts/grade_options_shadow.py:45-48 | capping wins keeps every plan of the null unfavourable when no return is below -1 |
| `EProcess.SupermartingaleIff` | scripts/grade_options_shadow.py:46-48 | for any process that stakes a positive amount on the clamped return: its expected next value is at most the present one if and only if the mean clamped return is at most 0 |
| `EProcess.WealthSupermartingaleIff` | scripts/grade_options_shadow.py:46-48 | the same for the wealth the code computes, at every node and after any past |
| `EProcess.Maximal` | scripts/grade_options_shadow.py:48-49 | a wealth that is at least 1 wherever the bar is reached bounds the chance of ever reaching it |
| `EProcess.Ville` | scripts/grade_options_shadow.py:47-50 | under the null the chance that the wealth of any prefix of the returns reaches c is at most 1/c: 20% at the pilot bar, 5% at the live bar |
| `EProcess.VilleNeedsBoundedLoss` | scripts/grade_options_shadow.py:45-46 | without the premium bound a zero-mean plan breaks it |
| `PremiumBound.TwoContractsBeatBound` | scripts/grade_options_shadow.py:44-47 | four zero-mean trades that lose two premiums at most reach their bar with more than the chance allowed |
| `PremiumBound.BoundIffOneContract` | scripts/grade_options_shadow.py:44-50 | with losses of up to k premiums the bound holds on every plan if and only if k is at most 1 |
| `NightlyEvidence.LateRowIff` | scripts/grade_options_shadow.py:143-157 | the rows kept one night are a prefix of those kept with one more row if and only if that row is on time |
| `NightlyEvidence.ClockOrderIsOnTime` | scripts/grade_options_shadow.py:143-157 | rows written in the order of their stamps are always on time |
| `NightlyEvidence.PooledGrow` | scripts/grade_options_shadow.py:159-183 | pooled rows only grow when exit rows come on time and no entry row is added for a position with a kept exit |
| `NightlyEvidence.NextNightExtends` | scripts/grade_options_shadow.py:182-204 | then the returns a cohort bets on one night, pooled or within a lane, are a prefix of those of the next |
| `NightlyEvidence.NightsExtend` | scripts/grade_options_shadow.py:182-204 | and on every line all nights look at prefixes of what the last one sees |
| `NightlyEvidence.NightWealth` | scripts/grade_options_shadow.py:204-211 | the evidence of a line, a cohort pooled or within a lane, is the wealth of those returns |
| `NightlyEvidence.ChanceAtMostReach` | scripts/grade_options_shadow.py:48-49 | an event of the realised returns that only happens when some prefix reached c is no more likely than that |
| `NightlyEvidence.NightlyVille` | scripts/grade_options_shadow.py:47-50 | under the null the chance that any nightly look sees evidence of c or more on a line, pooled or within a lane, is at most 1/c, for every history of successive nights |
| `NightlyHistories.HistoriesExist` | scripts/grade_options_shadow.py:188-204 | every list of returns has such a history, pooled and within a lane, looked at after every single trade |
| `NightlyHistories.LateRowEscapes` | scripts/grade_options_shadow.py:146 | one late row, and a night saw a wealth that no prefix of the final returns has, pooled and within a lane |
| `ExitRows.SortSorts` | scripts/grade_options_shadow.py:146 | the sort orders by time and permutes |
| `ExitRows.SortPutsEarliestFirst` | scripts/grade_options_shadow.py:143-157 | after it the first row of a position is its earliest, ties in file order |
| `ExitRows.EarliestRow` | scripts/grade_options_shadow.py:145 | that earliest row is in the ledger and no row of the position precedes it |
| `Grader.IndexEntries` | scripts/grade_options_shadow.py:136-138 | the dictionaries give each position the flags and cohort of its last entry |
| `Grader.SplitMalformed` | scripts/grade_options_shadow.py:140-141 | malformed ids and readable rows |
| `Grader.Dedupe` | scripts/grade_options_shadow.py:147-157 | the first row of each position, and the repeats |
| `Grader.FileUnderLanes` | scripts/grade_options_shadow.py:182-183 | each lane's list grows by one copy for each time the row names it |
| `Grader.Quarantine` | scripts/grade_options_shadow.py:159-183 | halted, violating and pooled rows, stale fills, and each lane's rows |
| `Grader.Grade` | scripts/grade_options_shadow.py:133-183 | the whole pipeline in order |
| `Grader.CohortEvidence` | scripts/grade_options_shadow.py:193-211 | one cohort's count, wealth, mean, skips and unlock |
| `Grader.GroupByCohort` | scripts/grade_options_shadow.py:189-191 | the rows of each cohort in their order |
| `Grader.Evidence` | scripts/grade_options_shadow.py:188-212 | a line for exactly the cohorts that have rows |
| `GraderAudit.RowConservation` | scripts/grade_options_shadow.py:140-183 | every row is malformed, duplicate, halted, violating or pooled, as multisets of ids and in number |
| `GraderAudit.VerdictIff` | scripts/grade_options_shadow.py:143-183 | a row gets a verdict if and only if it is the earliest readable row of its position and deserves it |
| `GraderAudit.ListedIff` | scripts/grade_options_shadow.py:159-175 | an id is listed as halted or violating, or pooled, if and only if its earliest readable row gets that verdict, and then once |
| `GraderAudit.DuplicatesListed` | scripts/grade_options_shadow.py:147-157 | a position is listed as a duplicate once for every readable row after its first |
| `GraderAudit.PooledDistinct` | scripts/grade_options_shadow.py:162 | each position is pooled at most once |
| `GraderAudit.PooledIsSound` | scripts/grade_options_shadow.py:165-181 | a pooled row is readable, not halted, has worst <= base <= optimistic within tolerance, and no readable row of its position is earlier |
| `GraderAudit.EvidenceAddsUp` | scripts/grade_options_shadow.py:188-212 | over the cohorts, bets and skips add up to the rows given |
| `GraderAudit.RowBetsIff` | scripts/grade_options_shadow.py:68-100 | wherever a row stands, it adds exactly its return when it is fresh or unmarked and priced, and otherwise no bet and one skip |
| `GraderAudit.EvidenceInOrder` | scripts/grade_options_shadow.py:188-212 | on any rows in order of time each cohort's wealth compounds its usable returns in that order, and an unlock takes that wealth and enough trades |
| `GraderAudit.PooledEvidence` | scripts/grade_options_shadow.py:188-212 | so it is on the pooled rows |
| `GraderAudit.LaneIff` | scripts/grade_options_shadow.py:182-183 | a lane's rows are the given rows that name it |
| `GraderAudit.LaneInOrder` | scripts/grade_options_shadow.py:182-183 | they keep the order of time |
| `GraderAudit.LaneOnceIff` | scripts/grade_options_shadow.py:182-183 | each trade is in them once if and only if no row names the lane twice |
| `GraderRules.ReadIff` | scripts/grade_options_shadow.py:108-130 | which rows are read |
| `GraderRules.OrderedIff` | scripts/grade_options_shadow.py:169-171 | the fills are in order if and only if the three nets are numbers rising within a billionth |
| `GraderRules.VerdictIs` | scripts/grade_options_shadow.py:136-175 | which rows are halted and which pooled, by the last entry of their position and their nets |
| `GraderRules.CohortIs` | scripts/grade_options_shadow.py:137-138 | the cohort is the configuration named by the last entry of the position |
| `GraderRules.LanesAre` | scripts/grade_options_shadow.py:182 | the lanes a row is filed under |
| `GraderRules.LineIs` | scripts/grade_options_shadow.py:193-211 | count, skips, mean and both unlock bars of an evidence line |
| `FillMath.EntryFillsOrdered` | atlas/options/shadow.py:35-43 | buying costs most on the worst ledger |
| `FillMath.ExitFillsOrdered` | atlas/options/shadow.py:46-54 | selling brings least on the worst ledger |
| `FillMath.FillsOf` | atlas/options/shadow.py:35-54 | the three fills of a clean quote as weights of bid and ask |
| `FillMath.QuotesCleaned` | atlas/options/shadow.py:37-39 | negative and crossed quotes are read as clean ones |
| `FillMath.NetIs` | atlas/options/shadow.py:177-184 | a net is a hundred times the contracts times the move of the fills |
| `FillMath.BuiltRowSays` | atlas/options/shadow.py:168-200 | what the row of a closed position says, ledger by ledger |
| `FillMath.BuiltRowsPass` | atlas/options/shadow.py:168-200 | every built row has its nets in order, and is readable if and only if it has a ten-character day, a lane and a rule |
| `FillMath.BuiltReturn` | scripts/grade_options_shadow.py:68-79 | the return bet on is the contract count times the relative move of the worst fills; none without an entry price |
| `FillMath.BuiltRowBetsIff` | scripts/grade_options_shadow.py:95-100 | a built row is bet on if and only if its quote was fresh or is not marked, and it has an entry price |
| `FillMath.LossBoundedIff` | scripts/grade_options_shadow.py:44-46 | no exit quote loses more than the premium if and only if the position is at most one contract |
| `FillMath.LossWithinContracts` | scripts/grade_options_shadow.py:68-79 | the return of a built row is at least minus its contract count |
| `FillMath.BookReturnsBounded` | scripts/grade_options_shadow.py:44-48 | on any list of the book's own one-contract rows every return bet on is at least -1, so the lower clamp of the wealth never binds |
| `JsonExtract.Find` | atlas/models/http_client.py:46 | index of the first occurrence of a character, or -1 |
| `JsonExtract.StripIs` | atlas/models/http_client.py:40 | stripping takes exactly the spaces off both ends, by their code points |
| `JsonExtract.TagIff` | atlas/models/http_client.py:43-44 | the tag dropped is `json` in either case |
| `JsonExtract.BodyIs` | atlas/models/http_client.py:41-45 | what is scanned: the stripped text, or what stands between opening backquotes and the next three |
| `JsonExtract.Balanced` | atlas/models/http_client.py:50-70 | the character loop takes exactly what the depth and escape automaton takes |
| `JsonExtract.ExtractJsonObject` | atlas/models/http_client.py:35-70 | the method computes the specified extraction on every text |
| `JsonExtract.TakenValue` | atlas/models/http_client.py:50-69 | started at its bracket, the scanner takes exactly a printed value, whatever follows |
| `JsonExtract.ExtractRecovers` | atlas/models/http_client.py:35-70 | for every composite value, bracket-free prefix and suffix: the value comes back if and only if the fence handling leaves it alone |
| `JsonExtract.LosesFenced` | atlas/models/http_client.py:41-45 | a second fence in the prefix or the value loses it |
| `JsonExtract.FencedStringIsLost` | atlas/models/http_client.py:41-45 | a concrete reply that is lost: a fenced array whose one string is a fence |
| `JsonRepair.RepairJson` | atlas/models/http_client.py:73-101 | the loop computes the specified repair on every text |
| `JsonRepair.RepairKeepsSkeleton` | atlas/models/http_client.py:73-77 | on every text nothing but commas outside string literals is touched |
| `JsonRepair.RepairIdentityIff` | atlas/models/http_client.py:94-99 | the repair changes a text if and only if a comma outside strings stands before a closing bracket |
| `JsonRepair.DropsIff` | atlas/models/http_client.py:94-99 | a character is dropped if and only if it is a comma outside strings with nothing but spaces, tabs and line ends between it and a closing bracket |
| `JsonRepair.FixValue` | atlas/models/http_client.py:73-101 | repairing a printed value prints the same tree without its stray commas, whatever follows |
| `JsonRepair.RepairPrinted` | atlas/models/http_client.py:73-101 | a reply with stray commas at any depth becomes the same text without them; strict JSON is returned unchanged |
| `JsonRepair.CleanKeepsMeaning` | atlas/models/http_client.py:73-77 | dropping stray commas keeps validity and value |
| `JsonRepair.LoadsTolerant` | atlas/models/http_client.py:104-113 | first the text, then its repair |
| `JsonRepair.RepairsOnlyOnFailure` | atlas/models/http_client.py:110-113 | a text that decodes is taken as it is, one that does not is repaired once |
| `JsonRepair.TolerantReadsValue` | atlas/models/http_client.py:104-113 | with a strict decoder a printed value is read as what it means, however many stray commas it carries |
| `JsonRepair.TolerantInventsNothing` | atlas/models/http_client.py:104-113 | with a strict decoder a text that is read at all is strict JSON for that value after the repair |
| `JsonUnique.ValueUnique` | atlas/models/http_client.py:104-113 | texts that start the same, with a value and then a delimiter, hold the same value and the same rest |
| `JsonUnique.PrintIsUnambiguous` | atlas/models/http_client.py:104-113 | two strict texts with the same characters mean the same value |
| `JsonUnique.StrictDecoderExists` | atlas/models/http_client.py:104-113 | a strict decoder exists |
| `JsonUnique.StrictDecoderIsUnique` | atlas/models/http_client.py:104-113 | and there is only one |
| `JsonReply.ReplyIsRead` | atlas/models/http_client.py:35-113 | extraction and tolerant decoding together read the value a reply prints, with a strict decoder |
| `JsonReply.ReplyIsDecoded` | atlas/models/http_client.py:35-113 | the same with nothing assumed about the decoder |
| `OptionsShadow.OptionsShadowCore.RollDay` | scripts/run_options_shadow.py:430-598 | a new day rebuilds positions and the entry count from what each read gives; the same day or unreadable exits change nothing, any other unreadable file counts as empty |
| `OptionsShadow.OptionsShadowCore.OpenPositions` | atlas/options/shadow.py:356-403 | all unexited entries read, in file order, each with the merged lanes its own read of the merges gives |
| `OptionsShadow.OptionsShadowCore.MergedLanes` | atlas/options/shadow.py:373-377 | lanes of an entry with the merges read folded in once |
| `OptionsShadow.OptionsShadowCore.Unexpired` | scripts/run_options_shadow.py:550-562 | positions past their expiry are not tracked, the others by id |
| `OptionsShadow.OptionsShadowCore.OnSignal` | scripts/run_options_shadow.py:762-802 | which gate decides, in order, and the state after it |
| `OptionsShadow.OptionsShadowCore.Enter` | scripts/run_options_shadow.py:925-1008 | one entry row and one open position under its id |
| `OptionsShadow.OptionsShadowCore.ForceExit` | scripts/run_options_shadow.py:1099-1146 | one exit row and the position gone, or nothing when it is not open |
| `OptionsShadow.OptionsShadowCore.RevalPositions` | scripts/run_options_shadow.py:1199-1415 | a sweep over a snapshot closes exactly the positions decided on |
| `SignalAdmission.ActsOnlyInTime` | scripts/run_options_shadow.py:762-780 | a signal that changes anything came before its expiry, inside the session of a weekday, outside any blackout |
| `SignalAdmission.EntersIff` | scripts/run_options_shadow.py:762-1008 | the ledger gains an entry if and only if the signal may act, nothing open has its exposure, there is room, a client and a pick; the row carries their fields |
| `SignalAdmission.MergesIff` | scripts/run_options_shadow.py:781-792 | it gains a merge if and only if the signal may act and the first position of its exposure does not name the lane |
| `SignalAdmission.ElseNothing` | scripts/run_options_shadow.py:762-802 | any other signal changes nothing |
| `SignalAdmission.AnswerIs` | scripts/run_options_shadow.py:762-802 | the answer names the first thing that stands in the way, or what was done |
| `SignalAdmission.ClosesIff` | scripts/run_options_shadow.py:1099-1146 | closing an open position writes its exit row and takes exactly its id out of the book; anything else changes nothing |
| `SignalAdmission.SweepIff` | scripts/run_options_shadow.py:1199-1412 | a sweep closes exactly the open positions it decides on |
| `SignalAdmission.CountDayIs` | scripts/run_options_shadow.py:923-925 | the number in an id is how many entry rows the day has |
| `SignalAdmission.EntriesAdmitted` | scripts/run_options_shadow.py:762-1008 | every entry row of every run was written by a signal free to enter, with its fields |
| `SignalAdmission.ExitsAdmitted` | scripts/run_options_shadow.py:1099-1146 | every exit row of every run closed a position open at that step, by force or by a sweep |
| `PositionLifecycle.IdsAreUnique` | scripts/run_options_shadow.py:923-925 | no position id is entered twice |
| `PositionLifecycle.RebuiltIff` | atlas/options/shadow.py:364-369 | a rebuild holds exactly the unexited, unexpired entries |
| `PositionLifecycle.ReadBackIff` | atlas/options/shadow.py:364-377 | what the reads give back is the ledger's book if and only if the entries were read or none was open, and no open entry lost a merged lane |
| `PositionLifecycle.RollKeepsIff` | scripts/run_options_shadow.py:440-563 | a roll to a new day keeps memory and ledger in agreement if and only if every read that failed had nothing to give |
| `PositionLifecycle.LockedEntriesIff` | atlas/options/shadow.py:329-335 | with the entries file locked throughout, if and only if nothing is open and the day has no entries |
| `PositionLifecycle.EnterKeeps` | scripts/run_options_shadow.py:983-1008 | entering keeps memory and ledger in agreement |
| `PositionLifecycle.MergeKeeps` | scripts/run_options_shadow.py:781-792 | so does merging, lanes included |
| `PositionLifecycle.CloseKeeps` | scripts/run_options_shadow.py:1136-1142 | so does closing |
| `PositionLifecycle.SweepKeeps` | scripts/run_options_shadow.py:1199-1412 | so does a sweep |
| `PositionLifecycle.RollFilters` | scripts/run_options_shadow.py:544-563 | a roll whose failing reads had nothing to give keeps the open positions but those that expired unexited |
| `PositionLifecycle.RestartLosesNothing` | scripts/run_options_shadow.py:544-563 | the roll after a crash gives the very book an all-readable roll gives without it, if and only if it reads the exits and every other failing read had nothing to give |
| `PositionLifecycle.SignalKeeps` | scripts/run_options_shadow.py:762-802 | a signal keeps the agreement and never grows the book past the larger of its size and `max_concurrent` |
| `PositionLifecycle.RunKeeps` | scripts/run_options_shadow.py:762-802 | both hold over every interleaving of signals, exits, sweeps, crashes and rolls that lose nothing to a failing read |
| `PositionLifecycle.RunKeepsIff` | scripts/run_options_shadow.py:430-563 | memory agrees with the ledger after every step of a run if and only if no roll in it lost anything to a failing read |
| `PositionLifecycle.BookIsExact` | scripts/run_options_shadow.py:762-802 | from an empty ledger, over such runs: entered once, exited at most once, memory equals the ledger, exclusive exposure, bounded count |
| `PositionLifecycle.LockedEntriesBreakBook` | atlas/options/shadow.py:329-403 | concrete runs with one locked read: a held position untracked and its exposure entered again, under the same id within the minute, or under a new one and then tracked twice after the next readable roll |
| `PositionLifecycle.RunTidy` | scripts/run_options_shadow.py:781-792 | in every run, whatever its reads, memory has one position for each id and no position or entry names a lane twice |
| `PositionLifecycle.LedgerGrows` | atlas/options/shadow.py:248-253 | every run only appends to the ledger |
| `Thesis.ShadowPosition.ThesisValid` | scripts/run_options_shadow.py:1054-1097 | the answer and the new memory, with the loop over the lanes |
| `Thesis.EarlyCall` | scripts/run_options_shadow.py:1065-1067 | an overnight position before 10:00 is valid and its count cleared |
| `Thesis.LateCall` | scripts/run_options_shadow.py:1068-1097 | every other call: no bar, the bar judged last, or a new bar that counts if some armed lane says invalid and none says otherwise or fails |
| `Thesis.MemoryIsHistory` | scripts/run_options_shadow.py:1071-1096 | streak and minute say exactly what the history of calls says |
| `Thesis.LostIff` | scripts/run_options_shadow.py:1054-1097 | the thesis is lost if and only if the last two new bars found every armed lane invalid, with no exempt call since |
| `Thesis.LostHasWitnesses` | scripts/run_options_shadow.py:1058-1062 | two evaluations on different bar minutes with none in between |
| `Thesis.RepeatIsIdle` | scripts/run_options_shadow.py:1072-1073 | asking again about the same bar changes nothing |
| `Thesis.OvernightIsExempt` | scripts/run_options_shadow.py:1065-1067 | an overnight position is never invalid in its first thirty session minutes, and losing the thesis later takes two damning evaluations on different bars after them |
| `NewsTap.NewsTap.constructor` | atlas/collect/benzinga_news.py:261-273 | the cursor starts in the past, never in the future |
| `NewsTap.NewsTap.RememberOne` | atlas/collect/benzinga_news.py:275-281 | set and queue hold the same fingerprints, each once, within the bound |
| `NewsTap.NewsTap.Unseen` | atlas/collect/benzinga_news.py:288 | the items not remembered |
| `NewsTap.NewsTap.Absorb` | atlas/collect/benzinga_news.py:290-295 | the memory after the new items and their latest time stamp |
| `NewsTap.NewsTap.PollOnce` | atlas/collect/benzinga_news.py:283-304 | output, cursor, memory and counters after a poll |
| `NewsArchive.NoLostNews` | atlas/collect/benzinga_news.py:249-304 | every archive item from the initial cursor up to the present one has been appended, the cursor never moves back, the memory is bounded and free of repeats |
| `NewsArchive.OutputIsStretch` | atlas/collect/benzinga_news.py:253-304 | with a poll limit within the memory, the output of every run is one unbroken stretch of the archive in its order |
| `NewsArchive.NoRepeatsIff` | atlas/collect/benzinga_news.py:275-288 | no run over any archive appends an item twice if and only if the poll limit is at most 5000, the size of the memory |
| `NewsArchive.PollAdvancesIff` | atlas/collect/benzinga_news.py:253-258 | a poll with news waiting moves the cursor if and only if the overlap holds fewer items than the limit |
| `NewsArchive.StuckForever` | atlas/collect/benzinga_news.py:256-258 | otherwise it never moves again |
| `NewsArchive.BurstStopsTap` | atlas/collect/benzinga_news.py:256-268 | a burst of two items a second stops the tap under the defaults |
| `TokenBucket.RunBounds` | atlas/execution/rate_gate.py:49-52 | in every interleaving tokens stay within bounds and what was taken was there or accrued |
| `TokenBucket.IntervalBound` | atlas/execution/rate_gate.py:49-79 | over any stretch at most the capacity plus refill times its length is taken |
| `TokenBucket.Untouched` | atlas/execution/rate_gate.py:49-52 | while nobody takes, the level is the capped accrual, however often it is read |
| `TokenBucket.AccruedIs` | atlas/execution/rate_gate.py:51 | what flows in is the time times the rate |
| `TokenBucket.SectionLeaves` | atlas/execution/rate_gate.py:49-67 | what one section leaves: the level at the clock, one less for an order or an attempt that finds a whole token |
| `TokenBucket.OrdersDrain` | atlas/execution/rate_gate.py:62-67 | orders at one moment drain the bucket one whole token each until none is left |
| `TokenBucket.CallsWaitForOrders` | atlas/execution/rate_gate.py:62-75 | another call after them is granted if and only if the missing part of a token has flowed in |
| `TokenBucket.EightOrders` | atlas/execution/rate_gate.py:40-75 | with the shipped rate eight orders make the next call wait half a second |
| `RateGate.RateGate.constructor` | atlas/execution/rate_gate.py:40-47 | the bucket starts full |
| `RateGate.RateGate.Replenish` | atlas/execution/rate_gate.py:49-52 | the level is brought up to the clock |
| `RateGate.RateGate.Tokens` | atlas/execution/rate_gate.py:54-57 | reading the level takes nothing |
| `RateGate.RateGate.TryTake` | atlas/execution/rate_gate.py:63-74 | one locked section takes one token exactly when there is one, on the level itself |
| `RateGate.RateGate.Acquire` | atlas/execution/rate_gate.py:59-79 | high calls succeed at once and take a token if there is one; others, whose deadline is counted from an earlier clock reading than the first attempt's, end within a bounded number of attempts, take exactly one token when they succeed and none when they fail, and fail only past the deadline |
| `RateGate.TurnProgress` | atlas/execution/rate_gate.py:69-79 | each turn of the waiting loop lets time pass, or another caller got a token, or the next attempt succeeds |
| `RateGate.MorePatience` | atlas/execution/rate_gate.py:69-79 | a failed attempt before the deadline is within the bound |

## Left out

- Network clients, file appends, atomic replaces, heartbeats, lock files and subprocesses: a ledger is a sequence that grows, a feed an argument.
- The dictionary of builders per symbol: one symbol is modelled, and the six parallel lists are one list of bars. `latest_tick` and `n_bars` only return a field.
- The volatility estimate of a bar is an arbitrary function of the bars up to it.
- `StalkerFSM.step` is one method in the program; here its stages are methods of the same object. A close of exactly 0 at a trigger divides by zero in the program, so bars fed have a close other than 0.
- `json.loads` is the one decoder that reads every strict text as its value and nothing else; Python's collapsing of repeated names in an object is not modelled. Nor are its errors that are no decode errors, from deep nesting or from integers of more than 4300 digits, which `loads_tolerant` does not catch.
- The lane statistics of the scorecard (means, profit factor, day share, exit rules, detectable edge) and the list of expired entries: sums and displays over the rows proved pooled here. Python's errors on nets that are not numbers at all are not modelled; a NaN net is. A NaN entry fill or contract count, which the book never writes, is not: the code would bet on it and multiply the wealth by its floor.
- Grader.Evidence: cohorts are visited in any order, the program visits them sorted; the result is the same dictionary.
- The order in which `Grader` sorts equal time stamps is the stable order; time stamps that are NaN are not modelled.
- The exit engine, the contract selector, lane signals and their latches, marks, quotes and post-exit capture: the book takes the selector's pick and the set of positions a sweep decides to close as inputs.
- Writes to the ledger succeed, and its rows are read back as they were written: torn or foreign lines, and an error raised half-way through a roll, are not modelled.
- `Grader` takes the rows its reads return: its own reads of the ledger are not strict, so a locked file gives it fewer rows or none.
- Position ids are tuples; the program joins the same four parts with colons, which no contract symbol contains. `merged_into` is never written by the book.
- PositionLifecycle.RunKeeps: besides the exact condition on reads, day rolls do not go back in time, picks have not expired and lane names are not empty; the program relies on its clock, the option chain and the lane classes for these.
- Symbols are compared as written; the rebuild's upper-casing changes nothing on the upper-case symbols the lanes emit.
- NewsArchive.NoLostNews: the archive has no late arrivals; fetching is oldest first.
- Real sleep and real locks: a run of the bucket is a sequence of locked sections, other threads' sections are arguments of the waiting loop.
- Floating-point rounding, time zones and UTF-8 decoding.
- The dashboard, alerts, prompts, data screens, strategy-lab settlement and the provider adapters.
