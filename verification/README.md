# A verified model of the trading engine's core algorithms

The repository is a trading engine.  This project models the parts of it that carry real
algorithms or state machines, in Dafny, and proves what they promise.  Every module stands
for one source file or one part of it; loops and updates in place are methods and classes
that are proved against specification functions, and the promises are lemmas about those
functions.

- **Regime inference** (`HmmPaths`, `HmmAllPaths`, `HmmForward`, `HmmPosterior`, `HmmViterbi`,
  `HmmEm`, `HmmMoments`, `HmmFit`, `HmmCanonical`).  A Gaussian hidden Markov model.  The
  reference side is a sum, or a maximum, over all state paths; the scaled forward-backward
  tables, both posteriors, the Viterbi decoding and the Baum-Welch re-estimates are proved to
  be exactly what that definition says.
- **Fleet allocation** (`CorrelationGroups`, `Rebalancer`, `RebalancerShares`).  A path-halving
  union-find that computes exactly the components of the correlation graph, and the capped,
  damped, budget-preserving allocation around it.
- **Paper fills** (`LiveShadow`).  The greedy book walk and its optimality, by an exchange
  argument.
- **Bar replay** (`Backtest`, `BacktestRun`, `BacktestStory`).  The engine's exits, scale-outs
  and entries, bounds over whole runs, and what each booked trade says of the bars.
- **Consistency rule** (`Consistency`, `TradingCalendar`).  When the reported headroom is the
  exact break-even point, and the roll to the next trading day.
- **Response cache and spend breaker** (`FmCache`, `FmBreaker`, `FmRouting`).  A least recently
  used cache with two times-to-live, a check-call-record protocol with several calls in
  flight, and interleaved calls that go through both.
- **Order book** (`L2Book`).  Snapshots, sequenced deltas, and metrics.
- **Kill switch and latch** (`KillSwitch`, `Latch`).  The verdicts of a tick, and the file that
  keeps a trip through crashes, modelled as disk steps of one writer.
- **Drift and structure** (`PnlDrift`, `PnlStreak`, `Reconciler`, `Htf`).  The Page-Hinkley
  detector in closed form and the exact condition under which a streak trips it, the equity
  reconciler's hysteresis latch and counters, and the top-down bias.

`Options`, `Reals`, `Sums`, `Sorting` and `Texts` hold what several modules share.  Python
floats are `real`; dates are day numbers or `(year, month, day, weekday)`; `round` is any
function, within half a cent of its argument where that matters.
The guards `_TINY` and `_LOG_ZERO` of `brain/regime_hmm.py` (1e-300 and -1e300)
are any positive and any negative number here, so nothing depends on their size.
`dafny verify dfyconfig.toml` verifies everything.

## Where the code and its own words differ

The model follows the code.  These differences are stated as lemmas.

- The headroom is documented as 0 once the rule is tripped (`core/consistency_guard.py:26-27`).
  `Consistency.ViolationWithHeadroom` is a history with a violation and a positive headroom;
  `EvaluateViolationHeadroomZeroIff` and `EvaluateHeadroomExactIff` say exactly when the words
  hold.
- The detector is said to be tuned so that twenty losses of -0.5 trip it
  (`brain/pnl_drift.py:36-40`).  A fresh detector never alarms on a constant stream
  (`PnlDrift.SteadyStreamNeverAlarms`).  `PnlStreak.LosingStreakTripsIff` says exactly when a
  streak does trip it, from the state before the streak; by `PnlStreak.DocumentedStreak` one
  break-even trade before the twenty losses is enough, and the 12th of them alarms.
- The latch is said to be undefeatable by deleting or mangling the file
  (`core/kill_switch_latch.py:30-33`).  `Latch.BootRefusedIff`: a missing file and an object
  with an unknown state both read as armed, and evidence that is not empty and that no
  dictionary can be made of makes boot, recording and clearing raise
  (`core/kill_switch_latch.py:253-265`).
- A position may be opened with side LONG, SHORT, or any spelling that upper-cases to one of
  the four words (`backtest/engine.py:64-113`), but the trade record takes BUY and SELL alone
  (`backtest/models.py:30`).  `Backtest.ClosableIffBuyOrSell`: a position spelled otherwise is
  never stopped out and never takes profit.  `BacktestRun.RaisesIff`: a run that ever holds
  one raises at its end.
- The global kill check skips accounts at or below zero, and its default drawdown cap of 100
  cannot be reached above zero (`KillSwitch.DrawdownCapReachable`).
- The daily cap of the spend breaker is not itself a bound on the spend.  While days do not go
  back, `FmBreaker.DailySpendBounded` gives the exact bound and `BoundIsApproached` shows that
  nothing smaller will do.  Days can go back, because the date is read before the lock is taken
  (`brain/multi_model.py:272-281`): `OpenIffStretchReachesCap`, `ClosedIffForgotten` and
  `PassAfterTripIff` say exactly what the breaker knows and forgets then, and by
  `NoBoundIfDaysGoBack` nothing bounds the spend.

## Model

| member | source | states |
|---|---|---|
| HmmForward.ForwardExact | brain/regime_hmm.py:404-445 | while no bar has hit the zero-mass fallback, `alpha[t][i]` times the product of `c[0..t]` is the sum, over all state paths of bars 0..t that end in i, of the path weight; the product of the `c` alone is the likelihood |
| HmmForward.RawRowExact | brain/regime_hmm.py:418-444 | the same of the row before it is scaled, with the scales of the bars before it |
| HmmForward.PrefixMassStep | brain/regime_hmm.py:430-435 | the unscaled forward recursion follows from the definition of the mass as a sum over paths |
| HmmForward.FallbackIffImpossible | brain/regime_hmm.py:421-445 | for every model, whatever its parameters, no bar uses the uniform fallback row if and only if every prefix of the observations has positive likelihood |
| HmmForward.ValidModelNeverFallsBack | brain/regime_hmm.py:421-445 | with stochastic parameters and a positive density the `s <= 0` branches are unreachable, every scaled row is a distribution and every likelihood is positive |
| HmmForward.NormalisedIsDistribution | brain/regime_hmm.py:420-427 | dividing a non-negative row by its sum, or the fallback, gives a distribution |
| HmmForward.Rescale | brain/regime_hmm.py:420-427 | the in-place rescaling of one row and its recorded scale |
| HmmForward.FillRow | brain/regime_hmm.py:430-435 | the two inner loops compute one forward step |
| HmmForward.ForwardScaled | brain/regime_hmm.py:404-445 | the loop fills the specified table and scales, for every model and series |
| HmmAllPaths.AllPathsExact | brain/regime_hmm.py:404-445 | reference side: a list of all state paths of a length holds each exactly once |
| HmmAllPaths.PathSumIsSumOverAnyListing | brain/regime_hmm.py:404-445 | reference side: the path sums used throughout equal the plain sum over any duplicate-free list of all paths |
| HmmPosterior.BackwardExact | brain/regime_hmm.py:448-469 | the scaled backward table times its clamped scales is the weight of all continuations |
| HmmPosterior.BackwardTable | brain/regime_hmm.py:448-469 | the loop from the last bar back fills the specified table |
| HmmPosterior.ThroughMassFactors | brain/regime_hmm.py:472-486 | the weight of all full paths in state i at bar t is prefix mass times suffix mass |
| HmmPosterior.ThroughMassTotal | brain/regime_hmm.py:472-486 | at every bar the states share out the whole likelihood |
| HmmPosterior.TransitionMassFactors | brain/regime_hmm.py:489-517 | the weight of all full paths that move from i to j after bar t factors into prefix, move and suffix |
| HmmPosterior.GammaExact | brain/regime_hmm.py:472-486 | `gamma[t][i]` is exactly the share of the likelihood carried by the paths in state i at bar t, however small scales were clamped |
| HmmPosterior.PosteriorGamma | brain/regime_hmm.py:472-486 | the loop computes the normalised products |
| HmmPosterior.XiExact | brain/regime_hmm.py:489-517 | `xi[t][i][j]` is exactly the share carried by the paths that move from i to j after bar t |
| HmmPosterior.XiSumsToGamma | brain/regime_hmm.py:489-517 | summing xi over j gives gamma, in every branch, for any rows and scale |
| HmmPosterior.PosteriorXi | brain/regime_hmm.py:489-517 | the triple loop computes the specified table |
| HmmPosterior.PosteriorProbs | brain/regime_hmm.py:284-301 | forward, backward, gamma: for possible observations each entry times the likelihood is the weight of the paths through that state |
| HmmViterbi.PredictStates | brain/regime_hmm.py:240-282 | for any n >= 1 and K >= 1 the decoded sequence scores at least as high as every state sequence, and among equals is the one the strict comparisons pick; with a true logarithm and positive parameters no sequence has a larger path weight |
| HmmViterbi.ScoreIsLogWeight | brain/regime_hmm.py:240-282 | the score of a possible path is the logarithm of its weight, the product of its initial, transition and emission probabilities |
| HmmViterbi.MostProbableIff | brain/regime_hmm.py:240-282 | with zeros among the parameters the decoded sequence has the largest weight if and only if it is possible, or no sequence is |
| HmmViterbi.DecodedIsMostProbable | brain/regime_hmm.py:398-401 | which it is as soon as some possible sequence has a log weight above the stand-in for log 0 plus the largest log density a bar |
| HmmViterbi.TracedIsOptimal | brain/regime_hmm.py:273-282 | following the stored pointers from the best last state gives an optimal path |
| HmmViterbi.TableBounds | brain/regime_hmm.py:258-271 | every table entry bounds the score of every path that ends there |
| HmmViterbi.AdvanceRow | brain/regime_hmm.py:258-271 | one bar of the table: the first best predecessor of every state |
| HmmViterbi.Backtrace | brain/regime_hmm.py:273-282 | the backward loop follows the pointers from the first best last state |
| HmmCanonical.CanonicalizeStates | brain/regime_hmm.py:700-748 | variances come out ascending and no state is lost |
| HmmCanonical.CanonicalIsPermutation | brain/regime_hmm.py:730-748 | the reordering is by a true permutation of the states |
| HmmCanonical.LikelihoodInvariant | brain/regime_hmm.py:700-748 | the likelihood of every observation series is unchanged |
| HmmCanonical.BestScoreInvariant | brain/regime_hmm.py:700-748 | the best-path score is unchanged |
| HmmEm.EmStepValid | brain/regime_hmm.py:203-224 | every EM iteration maps valid parameters to valid parameters: distributions, and variances at the floor or above |
| HmmEm.TablesConsistent | brain/regime_hmm.py:207-212 | the tables of one E-step agree: xi summed over the arrival state is gamma at every bar but the last |
| HmmEm.RenormalisationIsNoOp | brain/regime_hmm.py:555-560 | when a state has mass its re-estimated row already sums to 1, so the defensive renormalisation changes nothing |
| HmmEm.NewInitialIsExact | brain/regime_hmm.py:525-531 | the new initial weight of i is the share of the likelihood of the paths that start in i |
| HmmEm.NewTransitionIsExact | brain/regime_hmm.py:534-561 | the new transition i to j is the path weight moving i to j over the path weight visiting i, over all bars but the last |
| HmmEm.NewMeanMinimises | brain/regime_hmm.py:564-595 | the new mean is the weighted least-squares centre, with the exact excess of any other centre |
| HmmMoments.NewMomentsAreExact | brain/regime_hmm.py:564-595 | where a state has weight, its new mean and variance are the mean and variance of the observations under the weights of the paths that are in it, the variance raised to the floor when below, and no other centre gives a smaller squared error |
| HmmMoments.NewMomentsWithoutMass | brain/regime_hmm.py:576-585 | where next to no weight visits it, they are the plain sample mean and variance, floored |
| HmmMoments.NewTransitionWithoutMass | brain/regime_hmm.py:534-561 | where next to no weight leaves it, its row is uniform |
| HmmFit.EStep | brain/regime_hmm.py:207-212 | the four calls of the E-step produce the specified tables |
| HmmFit.MStepInitial | brain/regime_hmm.py:525-531 | the new initial row is the first gamma row, normalised |
| HmmFit.MStepTransitions | brain/regime_hmm.py:534-561 | the loops compute the specified transition rows, the no-mass row included |
| HmmFit.MStepEmissions | brain/regime_hmm.py:564-595 | the loops compute the specified means and variances, the no-mass fallback included |
| HmmFit.PercentileNeverClamped | brain/regime_hmm.py:359-363 | the percentile index is the middle of its share of the sorted series, untouched by the clamping |
| HmmFit.StartModelFacts | brain/regime_hmm.py:344-380 | the starting parameters are shaped and stochastic; means are observations in ascending order, the initial row is uniform, the diagonal is 0.95 |
| HmmFit.StartModelTells | brain/regime_hmm.py:344-380 | each starting mean is the observation in the middle of its share, the rest of each row is shared evenly, each variance is the sample variance fanned out by powers of three, moved by its draw and floored |
| HmmFit.Initialize | brain/regime_hmm.py:344-380 | computes those parameters; with a positive density an EM step may be given them |
| HmmFit.IterateValid | brain/regime_hmm.py:203-224 | parameters stay valid through any number of iterations |
| HmmFit.EmLoop | brain/regime_hmm.py:203-230 | the loop stops at the first pair of log-likelihoods closer than `tol`, or after `max_iter` steps, and returns the parameters of that iteration with the recorded history |
| HmmFit.LogLikelihoodIsExact | brain/regime_hmm.py:203-230 | a recorded log-likelihood is at least the logarithm of the likelihood, and equal to it if and only if no bar was less likely than `_TINY` given those before |
| HmmFit.FitSingleState | brain/regime_hmm.py:326-342 | one state is fitted in closed form, its log-likelihood recorded twice |
| HmmFit.SingleStateMoments | brain/regime_hmm.py:326-342 | its mean and variance are the mean and the floored variance of the series |
| HmmFit.GaussianHMM.constructor | brain/regime_hmm.py:163-184 | a fresh model has no fit |
| HmmFit.GaussianHMM.Fit | brain/regime_hmm.py:186-238 | a series of fewer than two returns is rejected and leaves an earlier fit; otherwise the fit from the starting parameters of that series is stored and returned |
| HmmFit.GaussianHMM.Predict | brain/regime_hmm.py:240-282 | decoding is refused before a fit, gives nothing for no observations, and is optimal otherwise: of the largest path weight where all parameters are positive, and exactly when possible where not |
| CorrelationGroups.ParsesIff | brain/portfolio_rebalancer_v2.py:309-320 | a key names a pair if and only if it is a tuple of two, or the first of bar, colon and comma that splits the text into two sides neither blank gives that pair, trimmed |
| CorrelationGroups.ParseRoundTrip | brain/portfolio_rebalancer_v2.py:309-320 | a key written as two trimmed names around a bar parses back to the names |
| CorrelationGroups.LabelsAreExact | brain/portfolio_rebalancer_v2.py:272-306 | two names carry the same label exactly when a chain of edges links them |
| CorrelationGroups.MergeLabels | brain/portfolio_rebalancer_v2.py:286-292 | adding an edge and merging its ends' labels keeps labels exact |
| CorrelationGroups.HalvingKeepsForest | brain/portfolio_rebalancer_v2.py:280-284 | path halving keeps the parent map a forest with the same representatives |
| CorrelationGroups.LinkingKeepsForest | brain/portfolio_rebalancer_v2.py:286-292 | linking one root under another merges exactly their two components |
| CorrelationGroups.UnionFind.constructor | brain/portfolio_rebalancer_v2.py:278-279 | every name starts as its own representative |
| CorrelationGroups.UnionFind.Find | brain/portfolio_rebalancer_v2.py:280-284 | terminates on every reachable parent map, returns the representative and changes no component |
| CorrelationGroups.UnionFind.Union | brain/portfolio_rebalancer_v2.py:286-292 | joins the two components under the left representative and changes no other |
| CorrelationGroups.CorrelationGroupByName | brain/portfolio_rebalancer_v2.py:272-306 | two known names share a group exactly when a chain of known names joins them in which every link is an entry naming both, in either order, with its value or the negated value at or above the threshold |
| CorrelationGroups.GroupedIff | brain/portfolio_rebalancer_v2.py:293-299 | the components of the edges are exactly those chains |
| CorrelationGroups.SignDoesNotMatter | brain/portfolio_rebalancer_v2.py:299-299 | negating every correlation changes no group |
| CorrelationGroups.CollectGroups | brain/portfolio_rebalancer_v2.py:300-306 | bucketing by representative yields the components |
| CorrelationGroups.GroupsPartition | brain/portfolio_rebalancer_v2.py:272-306 | the groups partition the names |
| CorrelationGroups.OrderDoesNotMatter | brain/portfolio_rebalancer_v2.py:293-299 | the groups do not depend on the order correlations are read |
| RebalancerShares.RankIsStanding | brain/portfolio_rebalancer_v2.py:124-133 | a rank multiplier lies as far between the caps as the bot has others below it: the worst of two or more gets the lower cap, the best the upper one, and every step is the same |
| Rebalancer.RanksOrdered | brain/portfolio_rebalancer_v2.py:124-133 | rank multipliers lie within the caps and a better Sharpe ratio never gets the smaller one |
| RebalancerShares.DampIsShare | brain/portfolio_rebalancer_v2.py:258-270 | in a group of two or more a winner keeps of its excess over 1 one share a member; all others keep theirs |
| Rebalancer.DampShrinks | brain/portfolio_rebalancer_v2.py:258-270 | damping only shrinks a winner's excess over 1, leaves losers alone and keeps the order within group sizes |
| Rebalancer.TargetsSpendTheBudget | brain/portfolio_rebalancer_v2.py:138-152 | the unrounded targets sum to the baselines, or to half of them when the drawdown exceeds the threshold |
| RebalancerShares.TargetsAreShares | brain/portfolio_rebalancer_v2.py:135-152 | and they are in proportion to the baselines times the damped multipliers, the groups being those of the correlation chains |
| Rebalancer.TargetsWithinCaps | brain/portfolio_rebalancer_v2.py:138-152 | every final multiple of a baseline lies in [cap_low/cap_high, cap_high/cap_low], times 1 or 1/2 |
| Rebalancer.RoundedTotal | brain/portfolio_rebalancer_v2.py:152-152 | rounding each target moves their sum by at most half a cent a bot |
| Rebalancer.RoundedTargetsNearBudget | brain/portfolio_rebalancer_v2.py:138-180 | with positive baselines and cent rounding the reported total is within half a cent for each bot, and one more, of the braked budget |
| Rebalancer.PlaceRanks | brain/portfolio_rebalancer_v2.py:124-133 | the loop assigns the rank multipliers in Sharpe order |
| Rebalancer.DampenCorrelatedWinners | brain/portfolio_rebalancer_v2.py:258-270 | the copy is damped exactly at the winners of groups of two or more |
| Rebalancer.ComputeTargets | brain/portfolio_rebalancer_v2.py:120-152 | ranks, damped ranks, groups and targets of the whole fleet |
| Rebalancer.BuildRebalancePlan | brain/portfolio_rebalancer_v2.py:95-180 | the plan: empty for no bots, else one decision a bot with its target, multiple, group and flags, and a total near the budget |
| LiveShadow.FilledIsMaximal | core/live_shadow.py:86-107 | filled is the smaller of the order and the positive liquidity, and filled plus remaining is the order |
| LiveShadow.RemainingIsShortfall | core/live_shadow.py:94-104 | after every level what remains is exactly what the levels so far cannot cover |
| LiveShadow.Pivot | core/live_shadow.py:94-104 | on a best-first book one price separates the emptied levels from the untouched ones |
| LiveShadow.GreedyIsOptimal | core/live_shadow.py:86-107 | no other allocation of the filled quantity buys cheaper or sells dearer |
| LiveShadow.VwapMonotone | core/live_shadow.py:105-107 | a larger order never gets a better average price |
| LiveShadow.VwapNoBetterThanMid | core/live_shadow.py:146-185 | when no level is better than the mid, neither is the average price |
| LiveShadow.SlippageCoversFee | core/live_shadow.py:146-185 | then reported slippage is at least the fee, for either side |
| LiveShadow.OkIffLiquid | core/live_shadow.py:110-185 | a fill is ok exactly when the taker side holds the order up to dust; otherwise it reports all the liquidity |
| LiveShadow.WalkBook | core/live_shadow.py:86-107 | the loop returns the specified fill, average, levels consumed and remainder |
| LiveShadow.SimulateFill | core/live_shadow.py:110-185 | a buy takes the asks and a sell the bids, as much as there is up to the order; ok exactly when that is the order up to dust; a rejection is never ok; the average times the quantity is the cost, and slippage before the fee times the mid is 10000 times the distance from the mid, signed by the side |
| Backtest.PostInitIff | backtest/engine.py:64-113 | whatever the spelling, construction succeeds exactly when the sizes are positive and stop, entry, partial and target are in order for the side |
| Backtest.PostInitAcceptsTradable | backtest/engine.py:64-113 | for BUY and SELL those are the tradable positions |
| Backtest.ClosableIffBuyOrSell | backtest/engine.py:313-357 | some bar can close a position exactly when its side is spelled BUY or SELL; other spellings that pass construction (LONG, SHORT, "buy") never exit |
| Backtest.ExitRaisesIff | backtest/models.py:23-47 | when a sound bar hits the stop or target of a position in good order, its record is refused exactly if its side is not BUY or SELL, its score outside [0, 10] or its leverage negative |
| Backtest.ExitStepReachable | backtest/engine.py:313-357 | every reachable position is untouched or scaled out once |
| Backtest.ExitStepKeeps | backtest/engine.py:313-357 | the stop only tightens, the partial fires at most once, and closed plus running quantity is the original |
| Backtest.ScaledOutExitCannotLose | backtest/engine.py:313-398 | a bar that closes a scaled-out trade leaves it the locked profit or more |
| Backtest.SurvivedClose | backtest/engine.py:313-357 | the close of a bar that did not exit lies strictly between stop and target |
| Backtest.ConfluenceBracket | backtest/engine.py:279-311 | a confluence entry is tradable, its record will be accepted, and it brackets exactly the configured risk against its multiple |
| Backtest.ConfluenceStop | backtest/engine.py:288-294 | its stop is the configured multiple of the mean range of the last 14 bars away |
| Backtest.BracketedPnl | backtest/engine.py:358-398 | between stop and target such a trade earns between minus the risk and the reward |
| BacktestRun.CurveIsPrefixSums | backtest/engine.py:184-220 | on every run, whether it returns or raises, the equity curve is the initial equity plus the prefix sums of the booked results |
| BacktestRun.ScaledOutTradesNeverLose | backtest/engine.py:184-220 | on every run of every strategy whose positions pass construction, whether it returns or raises, a booked trade that took its partial ends with the locked profit or more, session ends included |
| BacktestRun.RaisesIff | backtest/engine.py:184-220 | such a run raises if and only if some prefix of its bars left open a position whose record is refused, a LONG or a "buy" for one: it is neither booked nor let go |
| BacktestRun.OnlyAcceptedIsBooked | backtest/models.py:23-47 | on any run of any strategy everything booked is a BUY or a SELL with positive quantity and prices, a score in [0, 10] and no negative leverage |
| BacktestStory.EveryTradeIsTold | backtest/engine.py:184-398 | on every such run each booked trade was asked for by the strategy at the close of some bar with the equity of that time, no bar in between would have closed it, and on its last bar the stop came before the target: a stop exit at the stop in force on a bar that reached it, a target exit at the target on a bar that reached it and not the stop, a session end at the last close; the partial was taken exactly if some bar reached it, and the result is written out |
| BacktestRun.FlatOnlyIfRefused | backtest/engine.py:184-220 | with bars in day order every entry is a booked trade or still open, and the engine stays flat after a bar only if the day's entries are used up or the strategy asks for nothing |
| BacktestRun.ConfluenceTradesBracketed | backtest/engine.py:184-220 | no confluence run raises, and each unrounded result lies in [-risk_usd, rr * risk_usd] of the equity at entry |
| BacktestRun.EquityFloor | backtest/engine.py:184-220 | hence after n trades equity is at least E0 * (1 - p)^n - 0.005 * n |
| BacktestRun.DailyCapHolds | backtest/engine.py:192-205 | with bars in day order no day sees more entries than allowed |
| BacktestRun.ConfluenceOpensTradable | backtest/engine.py:279-311 | the confluence strategy only opens buys and sells in good order, which pass construction |
| BacktestRun.Position.Close | backtest/engine.py:358-398 | books the runner plus the locked partial, tagged with how it ended; raises exactly when the record is refused |
| BacktestRun.Position.TakePartial | backtest/engine.py:313-346 | closes the fraction once and pulls the stop to break-even |
| BacktestRun.Position.Exit | backtest/engine.py:313-357 | partial first, then stop, then target, on the updated position; raises when the close does |
| BacktestRun.Run | backtest/engine.py:184-220 | the loop returns the specified final equity, curve and trades, or raises at the first refused record |
| Consistency.SplitToday | core/consistency_guard.py:317-354 | today and the other days make up the totals, for whichever value today takes |
| Consistency.HistoryTells | core/consistency_guard.py:317-354 | the largest day is the largest winning one, reported with the first date that reached it |
| Consistency.VerdictTells | core/consistency_guard.py:325-346 | status, ratio and limit in terms of the total and the largest day, without division |
| Consistency.PutTwice | core/consistency_guard.py:252-265 | recording a day again replaces it without a trace |
| Consistency.PriorMaxBranchIsDead | core/consistency_guard.py:417-427 | the branch `floor_needed <= prior_max_win` can never be taken |
| Consistency.HeadroomSimplified | core/consistency_guard.py:375-437 | so the headroom is 0 if a prior day is over the cap and the distance to the cap otherwise |
| Consistency.ViolatesIff | core/consistency_guard.py:325-346 | VIOLATION without division: a positive total and a largest day at or over its share |
| Consistency.HeadroomExactWhenSafe | core/consistency_guard.py:375-437 | when the verdict is OK or WARNING, raising today by x >= 0 violates if and only if x reaches the headroom |
| Consistency.PriorOverCapAlwaysViolates | core/consistency_guard.py:375-437 | when the best prior day is over the cap every value of today with a positive total violates, and the headroom is 0 |
| Consistency.ViolationHeadroomZeroIff | core/consistency_guard.py:26-27 | over all totals, the documented 0 headroom in a violation holds exactly when today is the largest day or a prior day is over the cap |
| Consistency.EvaluateViolationHeadroomZeroIff | core/consistency_guard.py:296-373 | the same of the program itself, for every history and every mark of today |
| Consistency.ViolationWithHeadroom | core/consistency_guard.py:26-27 | a history on which it does not: a violation that reports a positive headroom, and a better day that ends it |
| Consistency.HeadroomExactIff | core/consistency_guard.py:375-437 | exactly when the reported headroom is the break-even point, over all totals and verdicts |
| Consistency.EvaluateHeadroomExactIff | core/consistency_guard.py:296-373 | the same of the program itself, for every history and every mark of today |
| Consistency.ConsistencyGuard.RecordEod | core/consistency_guard.py:252-265 | stores the day and judges it; a malformed date changes nothing |
| Consistency.ConsistencyGuard.Reset | core/consistency_guard.py:279-294 | forgets every day |
| TradingCalendar.FixedClosuresIsolated | core/consistency_guard.py:551-593 | two days running are never both fixed closures |
| TradingCalendar.HolidayIff | core/consistency_guard.py:543-593 | the closures are the four fixed days, the third Mondays of January and February, the last of May, the first of September, the fourth Thursday of November, and Good Friday |
| TradingCalendar.FiveDaysIncludeTrading | core/consistency_guard.py:551-598 | any five days running include a trading day, whichever Fridays are Good Fridays |
| TradingCalendar.NextTradingDay | core/consistency_guard.py:601-605 | terminates within four steps at the least trading day at or after the given one |
| TradingCalendar.RolledSessionDay | core/consistency_guard.py:608-636 | the session day is kept when it trades and rolled forward otherwise |
| FmCache.NeverOverCapacity | brain/multi_model.py:210-218 | over any run the cache stays within capacity and holds no key twice |
| FmCache.HitIsLastPut | brain/multi_model.py:177-207 | a hit returns the response stored last under the key, within the time-to-live its emptiness selects |
| FmCache.ExpiredIff | brain/multi_model.py:197-204 | an entry expires as its age exceeds the time-to-live of its kind, the negative one for a blank text, and at once if that is not positive |
| FmCache.MissExactlyWhen | brain/multi_model.py:177-218 | on every run of requests, however the clock moves, a lookup misses if and only if the key was never stored, its entry expired, a late lookup dropped it since, or at some point since it was last touched the other keys touched and not dropped reached the capacity |
| FmCache.StruckIsExpired | brain/multi_model.py:197-204 | while the clock does not go back an entry a late lookup dropped is expired for good |
| FmCache.StandingAreRivals | brain/multi_model.py:177-218 | those standing keys are among the keys touched since, and all of them when no lookup comes after expiry |
| FmCache.MissHasCause | brain/multi_model.py:177-218 | so, unless the clock went back, a miss means never stored, expired, or at least `capacity` other keys touched since |
| FmCache.MissWithoutLateLookups | brain/multi_model.py:177-218 | as long as no lookup comes after expiry these simpler causes are exact in both directions |
| FmCache.LateLookupMakesRoom | brain/multi_model.py:197-204 | an input on which the simpler last cause is not exact: a late lookup removes an entry and makes room |
| FmCache.Cache.Get | brain/multi_model.py:177-207 | answers, moves or drops the entry, and counts one hit or one miss |
| FmCache.Cache.Put | brain/multi_model.py:210-218 | stores at the recent end and evicts the oldest beyond the capacity |
| FmBreaker.OpenIffStretchReachesCap | brain/multi_model.py:262-302 | under any interleaving of calls and any order of days the breaker is open on a day exactly when a last stretch of the run, all of whose records carry that day, records the cap or more |
| FmBreaker.ClosedIffForgotten | brain/multi_model.py:262-302 | after a trip the breaker is closed again exactly when a record of another day came since and what follows the last such record does not reach the cap |
| FmBreaker.PassAfterTripIff | brain/multi_model.py:295-302 | so after a trip a check of that day lets a call through exactly in that case |
| FmBreaker.OpenIffCapReached | brain/multi_model.py:262-302 | corollary when days do not go back: open on a day exactly when what was recorded on that day has reached the cap |
| FmBreaker.DailySpendBounded | brain/multi_model.py:262-302 | while days do not go back, with at most N calls in flight, each costing at most m, a day's recorded spend is below cap + N * m |
| FmBreaker.BoundIsApproached | brain/multi_model.py:262-302 | and comes as close to that bound as one likes, whatever a call costs |
| FmBreaker.NoPassAfterTrip | brain/multi_model.py:295-302 | corollary when days do not go back: once open on a day, no later check of that day passes |
| FmBreaker.NoCapNeverTrips | brain/multi_model.py:250-255 | a cap of 0 or less switches the breaker off |
| FmBreaker.EarlierDayForgets | brain/multi_model.py:273-281 | an input on which days do go back: a record carrying an earlier day clears a tripped breaker |
| FmBreaker.NoBoundIfDaysGoBack | brain/multi_model.py:262-302 | once days may go back there is no bound at all: under any cap one call at a time can spend any amount on a day |
| FmBreaker.LegalIsServedInOrder | brain/multi_model.py:262-302 | the runs of the bound are exactly the runs without it whose days are in order |
| FmBreaker.Breaker.CheckThenRecord | brain/multi_model.py:262-292 | rolls the day, adds the cost, trips at the cap, and reports whether calls may go on |
| FmBreaker.Breaker.IsOpen | brain/multi_model.py:295-302 | open exactly when tripped on the current day |
| FmRouting.RouteAndExecute | brain/multi_model.py:357-433 | one call through cache, breaker and provider: its outcome and the new state of both, every early exit included |
| FmRouting.AloneIsAtomic | brain/multi_model.py:357-433 | the lookup, check, record and store of one call, with nothing between them, do what the call as a whole does |
| FmRouting.RunIsBothRuns | brain/multi_model.py:357-433 | however the lookups, checks, records and stores of any number of calls interleave, the cache has seen exactly their requests and the breaker exactly their steps |
| FmRouting.FreeIff | brain/multi_model.py:357-433 | after any interleaving a lookup ends its call with the stored answer, spending nothing, if and only if its key was stored, has not expired, and was neither dropped nor crowded out |
| FmRouting.RepeatIsFree | brain/multi_model.py:357-433 | after any interleaving a repeat within its time-to-live, with fewer than `capacity` other keys touched between, returns the stored answer and takes no breaker step |
| FmRouting.InFlightIsFlying | brain/multi_model.py:357-433 | what the breaker counts as in flight are exactly the calls waiting for a provider |
| FmRouting.DailySpendBounded | brain/multi_model.py:357-433 | so while days do not go back and at most N calls wait at once, the spend of a day is below cap + N * m, whatever the cache does |
| FmRouting.RepeatIsAnswered | brain/multi_model.py:357-433 | at once after it is stored an unexpired answer is given from any cache that fits |
| L2Book.LadderLists | core/l2_capture.py:231-241 | a sorted side lists every level once, in strict price order |
| L2Book.MergeByPrice | core/l2_capture.py:200-209 | a delta's last word on a price decides, and other prices stay |
| L2Book.SnapshotByPrice | core/l2_capture.py:177-186 | a snapshot shows a price with the last positive quantity it gives for it |
| L2Book.ApplyTells | core/l2_capture.py:166-217 | one update of any kind, strict or not: what it leaves of the book price by price, and what it reports |
| L2Book.QuantitiesStayPositive | core/l2_capture.py:177-217 | prices and quantities stay positive through any run of valid updates |
| L2Book.CrossedIff | core/l2_capture.py:219-227 | crossed exactly when some bid reaches some ask |
| L2Book.StreamIsCleanReplay | core/l2_capture.py:188-217 | any stream of numbered deltas after number s, with duplicates, stale numbers and gaps, leaves the book of a clean replay of the numbers reached in order |
| L2Book.ReachedIsHighest | core/l2_capture.py:188-198 | without a refused gap that replay goes up to the highest number brought |
| L2Book.SnapshotIsSortedTop | core/l2_capture.py:231-256 | a snapshot shows true levels in strict order and leaves out no better one |
| L2Book.SnapshotRoundTrip | core/l2_capture.py:177-186 | a side restored from its full snapshot is the same |
| L2Book.SnapshotRestoresBook | core/l2_capture.py:177-186 | so is a whole book, replayed into any other |
| L2Book.SnapshotMetricsAgree | core/l2_capture.py:430-449 | spread, mid, weighted mid and imbalance of a snapshot are those of its book, at any depth |
| L2Book.MetricsTell | core/l2_capture.py:273-295 | spread, mid and weighted mid in terms of the highest bid, the lowest ask and their quantities |
| L2Book.ImbalanceTells | core/l2_capture.py:301-316 | the imbalance times the quantity shown is the difference of the sides |
| L2Book.ImbalanceRange | core/l2_capture.py:301-316 | the imbalance is strictly between -1 and 1, positive exactly when the bids outweigh the asks |
| L2Book.WeightedMidInside | core/l2_capture.py:284-295 | the weighted mid is strictly inside the spread, above the mid exactly when the best bid is larger |
| L2Book.OrderBook.constructor | core/l2_capture.py:126-146 | an empty book |
| L2Book.OrderBook.Apply | core/l2_capture.py:166-175 | a foreign symbol changes nothing, other updates are dispatched |
| L2Book.OrderBook.ApplySnapshot | core/l2_capture.py:177-186 | replaces the book, and reports a crossing after doing so |
| L2Book.OrderBook.ApplyDelta | core/l2_capture.py:188-217 | stale and skipping deltas leave the book untouched; a crossing is reported with the delta merged |
| L2Book.OrderBook.MergeInto | core/l2_capture.py:200-209 | the loop over levels merges them in order |
| L2Book.OrderBook.Read | core/l2_capture.py:243-256 | nothing before the first update, else the sorted, truncated snapshot |
| KillSwitch.GlobalFiresIff | core/kill_switch_runtime.py:289-312 | the global check fires exactly when a positive account is down from its peak, or on the day, by the configured share of the peak |
| KillSwitch.DrawdownCapReachable | core/kill_switch_runtime.py:289-312 | a wiped-out account never trips it, and a drawdown cap of 100 or more, the default, is never reached |
| KillSwitch.BotFiresIff | core/kill_switch_runtime.py:377-423 | a bot is flattened exactly on its tier's loss limit or its losing streak |
| KillSwitch.HighPairsCount | core/kill_switch_runtime.py:331-346 | the correlation check counts exactly the pairs at or over the threshold, in either sign |
| KillSwitch.HighPairsListed | core/kill_switch_runtime.py:331-346 | and names them in order |
| KillSwitch.EveryBreachIsReported | core/kill_switch_runtime.py:236-283 | short of a global trip every bot in breach gets its verdict |
| KillSwitch.ReportsExactly | core/kill_switch_runtime.py:236-423 | a tick reports exactly the verdicts that are due, each with its action, severity, scope, evidence and limits, in terms of the snapshots and the configuration alone |
| KillSwitch.TierActionsIff | core/kill_switch_runtime.py:236-346 | so it flattens all exactly on a breach of the portfolio, and otherwise pre-empts tier A exactly when the apex distance is at most the cushion, flattens tier B exactly when enough pairs are at or over the threshold, and continues exactly when nothing is in breach |
| KillSwitch.TickLatches | core/kill_switch_runtime.py:236-283 | the first latching verdict tells a breach of the portfolio, else of the apex cushion, else of the correlations, and there is none without one |
| KillSwitch.ContinueIffQuiet | core/kill_switch_runtime.py:274-283 | a tick reports CONTINUE alone exactly when nothing is in breach, and never otherwise |
| KillSwitch.Evaluate | core/kill_switch_runtime.py:236-283 | the appended list is the specified one, in order |
| KillSwitch.CheckFunding | core/kill_switch_runtime.py:348-375 | the loop lists the specified verdicts, one for each charged symbol and in order |
| KillSwitch.FundingGradesCharged | core/kill_switch_runtime.py:348-375 | each charged symbol, in order, is flattened at the hard limit or over and halved below it |
| KillSwitch.ChargedIff | core/kill_switch_runtime.py:348-375 | the charged symbols are exactly those whose rate reaches the smaller of the two limits |
| Latch.DictRoundTrip | core/kill_switch_latch.py:199-265 | a record read back from its own object is the same |
| Latch.BootRefusedIff | core/kill_switch_latch.py:287-352 | boot is refused exactly on an unreadable file or an object marked TRIPPED, raises exactly on evidence that is not empty and that no dictionary can be made of, and is allowed on a missing file or an unknown state |
| Latch.TripTellsVerdict | core/kill_switch_latch.py:358-390 | the stored trip tells action, scope, severity, evidence and time of the verdict: no two trips read alike |
| Latch.NextValid | core/kill_switch_latch.py:449-462 | every call, disk step and crash keeps the writer's invariant |
| Latch.FinalIsOldOrNew | core/kill_switch_latch.py:449-462 | at every step the final path holds the old content or the complete new object |
| Latch.NeverWritesGarbage | core/kill_switch_latch.py:449-462 | over any run with crashes the final path holds what was there or a complete object, so it never turns unreadable |
| Latch.FirstTripStays | core/kill_switch_latch.py:358-390 | once boot is refused the stored record stays through verdicts, unfinished clears and crashes until a clear completes |
| Latch.TripDurableIffReplaced | core/kill_switch_latch.py:449-462 | a trip survives a crash exactly if the replace step was done |
| Latch.ClearRearms | core/kill_switch_latch.py:392-443 | a completed clear re-arms, keeps the audit trail of a real trip, and the next latching verdict trips again; on malformed evidence it writes nothing |
| Latch.FirstTripWins | core/kill_switch_latch.py:358-390 | recording a list of verdicts stores the first that latches |
| Latch.ArmedTickTripsIff | core/kill_switch_latch.py:358-390 | an armed latch fed a whole tick trips exactly when the portfolio, the apex cushion or the correlations are in breach, and stores the verdict that tells the first of these |
| Latch.KillSwitchLatch.WriteAtomic | core/kill_switch_latch.py:449-462 | temporary file, then one atomic replace |
| Latch.KillSwitchLatch.Record | core/kill_switch_latch.py:358-390 | true exactly if this call tripped the latch, raising exactly on malformed evidence; otherwise nothing changes |
| Latch.KillSwitchLatch.ClearBy | core/kill_switch_latch.py:392-443 | refused without a name and on malformed evidence, else writes the re-armed record |
| Latch.KillSwitchLatch.Feed | core/kill_switch_latch.py:358-390 | records a tick's verdicts in order |
| PnlDrift.StateIsClosedForm | brain/pnl_drift.py:96-111 | since the last alarm the mean is the sample mean, both statistics are largest suffix sums, and `gmin_up`, `gmax_dn` are 0 |
| PnlDrift.AlarmIff | brain/pnl_drift.py:113-137 | an alarm is raised exactly when some suffix of the excess, or of the negated excess, exceeds the threshold, and reports it |
| PnlDrift.NeverBothAlarms | brain/pnl_drift.py:113-137 | the two alarms never hold at once |
| PnlDrift.NegationMirrors | brain/pnl_drift.py:96-137 | negating the stream mirrors every state and turns every alarm round |
| PnlDrift.SteadyStreamNeverAlarms | brain/pnl_drift.py:36-40 | a fresh detector never alarms on a constant stream, so not on the documented 20 losses of -0.5 |
| PnlStreak.StreakTripsIff | brain/pnl_drift.py:96-137 | from any state between alarms, one of the next k equal trades raises the downward alarm if and only if for some i up to k the statistic plus i lags of the mean, less i times the slack, exceeds the threshold |
| PnlStreak.LosingStreakTripsIff | brain/pnl_drift.py:96-137 | the same after any history of trades, read off the state that history leaves |
| PnlStreak.WinningStreakTripsIff | brain/pnl_drift.py:96-137 | and for the upward alarm, mirrored |
| PnlStreak.DocumentedStreak | brain/pnl_drift.py:36-40 | with the default settings and one break-even trade before them, the documented losses alarm at the 12th and not before; with nothing before them, never |
| PnlDrift.PageHinkleyDetector.Reset | brain/pnl_drift.py:88-94 | back to the fresh statistics |
| PnlDrift.PageHinkleyDetector.Update | brain/pnl_drift.py:96-137 | one observation, with the reset after an alarm |
| PnlDrift.PageHinkleyDetector.Feed | brain/pnl_drift.py:96-137 | over a whole stream the detector is the specified fold |
| Reconciler.AcceptedMeansHysteresis | core/broker_equity_reconciler.py:243-375 | accepted settings have the clear band inside the trigger band; refusals are exactly the negative numbers and the wider clear bands |
| Reconciler.ReasonIff | core/broker_equity_reconciler.py:449-492 | the reason, without division, in both directions |
| Reconciler.ClearsIff | core/broker_equity_reconciler.py:546-548 | a drift ends exactly when the broker is at most the clear band below |
| Reconciler.ResultTells | core/broker_equity_reconciler.py:396-492 | a tick reports the drift, its share of the logical equity and the reason, or that there was nothing to compare |
| Reconciler.CountersBalance | core/broker_equity_reconciler.py:396-568 | the three outcomes make up the total, and entries exceed exits by one exactly while latched |
| Reconciler.ChangesAlternate | core/broker_equity_reconciler.py:533-554 | entries and exits alternate, starting with an entry |
| Reconciler.LatchedIff | core/broker_equity_reconciler.py:533-554 | latched exactly when some tick found the broker below and none since has cleared |
| Reconciler.WindowIsExact | core/broker_equity_reconciler.py:513-515 | the windowed maximum is that of the last W real drifts |
| Reconciler.LifetimeMaxIsExact | core/broker_equity_reconciler.py:503-506 | the lifetime maximum is that of all real drifts |
| Reconciler.BrokerEquityReconciler.constructor | core/broker_equity_reconciler.py:340-375 | fresh counters, latch not set |
| Reconciler.BrokerEquityReconciler.Reconcile | core/broker_equity_reconciler.py:380-568 | one tick updates counters, window and latch as specified and reports them |
| Htf.ComputeEma | brain/htf_engine.py:60-82 | the loop computes the specified average, and refuses a period below 1 |
| Htf.EmaClosedForm | brain/htf_engine.py:60-82 | past its seed the average is the discounted sum of the values plus what is left of the seed's mean, with a factor of 2 over the period plus 1 |
| Htf.EmaSeedMean | brain/htf_engine.py:60-82 | up to its seed it is the mean of the values so far |
| Htf.EmaStaysInRange | brain/htf_engine.py:60-82 | the average never leaves the range of the values |
| Htf.EmaNeverLooksAhead | brain/htf_engine.py:60-82 | later values never change an earlier average |
| Htf.ScoreMeans | brain/htf_engine.py:91-105 | the slope rises, saturates and is confident exactly from the documented relative changes on |
| Htf.SlopeMeans | brain/htf_engine.py:86-105 | the slope compares the newest average with the one `lookback` values earlier, itself counted, or the first |
| Htf.FindSwingHighs | brain/htf_engine.py:113-131 | the loop lists the swing highs |
| Htf.FindSwingLows | brain/htf_engine.py:134-146 | the loop lists the swing lows |
| Htf.SwingsApart | brain/htf_engine.py:113-146 | two swings of one kind lie more than k bars apart |
| Htf.SwingsNeverLookAhead | brain/htf_engine.py:113-146 | later bars never remove or move a confirmed swing |
| Htf.SwingsMirror | brain/htf_engine.py:113-146 | upside down, swing lows are swing highs |
| Htf.StructureIff | brain/htf_engine.py:149-169 | the structure moves one way exactly when the newest two highs and lows both do |
| Htf.StructureMirrors | brain/htf_engine.py:149-169 | upside down, the structure is the opposite one |
| Htf.BiasIff | brain/htf_engine.py:215-265 | a direction exactly when the daily frame gives it and nothing contradicts it; agreement exactly when the four-hour frame gives it too |
| Htf.TopDownMirrors | brain/htf_engine.py:215-265 | mirroring all prices negates the bias and keeps the agreement |

## Left out

- Floating point: rounding error, NaN and infinities; `exp`, `log`, `sqrt` and the density
  itself are parameters, the density positive where a lemma says so.
- EM convergence and the monotone likelihood: they need convexity of `log`; the label mapper,
  AIC and BIC; the random draws of the initialisation are its `jitter` argument.
- HmmFit.GaussianHMM.constructor: the argument checks that raise are preconditions.
- HmmCanonical.CanonicalizeStates: the log-likelihood history, which is copied unchanged, is not part of the model.
- CorrelationGroups.CorrelationGroupByName: a group is a set, not a sorted tuple; trimming knows ASCII white space only; a key that is neither a text nor a tuple is not modelled.
- Rebalancer.BuildRebalancePlan: bot names are distinct and baselines positive; Sharpe ratios are given, not computed; applying a plan through hooks is left out.
- LiveShadow.SimulateFill: timestamps and the text of reasons.
- BacktestRun.Run: bars satisfy 0 < low <= close <= high where a lemma needs it; the strategy and the confluence score are functions, a score is given as rounded, and a position that construction refuses, which raises inside the strategy, is not modelled; close callbacks, the adverse-excursion record, the R multiple, and the summary statistics with the checks on them are left out.
- Consistency.EvaluateHeadroomExactIff: the state file, its corruption errors and the date syntax (a predicate); one entry a day.
- TradingCalendar.RolledSessionDay: the time-zone conversion to the base day and the computation of Good Friday, which is any set of Fridays.
- FmCache.Cache.Get: locking and the hashing of keys; settings are read anew by the program at every call and are fixed over a run here; trimming knows ASCII white space only.
- FmBreaker.DailySpendBounded: costs are not negative and the cap does not change during a run.
- FmRouting.RouteAndExecute: provider selection, fallbacks, telemetry and the per-call budget, which is one way for the provider step to raise.
- L2Book.OrderBook.Apply: depth and notional depth sums, the capture ring buffer and its CSV export.
- KillSwitch.Evaluate: the wording of reasons, which is determined by the scope and the evidence kept; reading the YAML file; the tick-cadence validator.
- Latch.NeverWritesGarbage: the file is missing, unreadable, an object, or an object with malformed evidence; JSON text, byte-order marks, `fsync` errors, path resolution and the legacy path are left out, `os.replace` is one step, and there is one writer.
- PnlDrift.PageHinkleyDetector.Update: serialisation of the detector.
- Reconciler.BrokerEquityReconciler.Reconcile: the minimum logical equity is positive (at 0 the program can divide by zero); timestamps, logging and the JSON view are left out.
- Htf.TopDownMirrors: a negative slope lookback, which the program does not check, is not modelled.
- LLM and CLI providers, telemetry, dashboards, policy tables, compliance thresholds and data generators: input and output, or one-branch rules.
