# Quadratic vote widget — a Dafny model

This project models the core of the quadratic-vote React widget
(`src/QuadraticVote/`). The widget has these parts:

- **The vote ledger.** `QuadraticVoteProvider` keeps a list of questions, each with a
  signed vote. A vote of `v` costs `v²` credits. The ledger refuses a step when the
  other questions' cost plus the square of the step exceeds the budget (see Findings),
  recomputes each question's up/down "disabled" flags, and announces a
  launch animation for every vote that changes the number of credits spent.
- **The diamond layout.** `createDiamond` builds the layout: level `L` holds `2L - 1`
  circles in a zig-zag. `setViewBox` computes the bounding view box of the rendered
  circles.
- **The animation planner.** `VoteAnimation` turns a launch into staggered flights
  between pool circles and diamond circles, with start and end window events.
- **The two views.** `Diamond` colours a question's circles by its vote. `Pool` colours
  the spent credits. Both keep sets of circles in flight.
- **The liquid pool.** `LiquidPool` gauge shows the credits that are left. It follows the
  animation timeline under a lock window, and it keeps a wet/drying/dry state and short-lived
  droplet bursts.

Each core file is one module:

| module | file | source |
|---|---|---|
| `Ledger` | `ledger.dfy` | `QuadraticVoteProvider.tsx` |
| `Geometry` | `geometry.dfy` | `utils.tsx`, plus the view-box effect of `Diamond.tsx` |
| `Animation` | `animation.dfy` | `VoteAnimation.tsx` |
| `DiamondView` | `diamond.dfy` | `Diamond.tsx` |
| `PoolView` | `pool.dfy` | `Pool.tsx` |
| `LiquidPoolView` | `liquid_pool.dfy` | `LiquidPool.tsx` |

Other modules:

- `Wrappers` holds `Option` and `Outcome`.
- `Arith` models `Math.min`, `Math.max`, `Math.abs` and `Math.trunc`.
- `Text` models number-to-string, `parseInt` and `split` on our strings.
- `Bus` holds the payloads of the window events the components exchange.
- `Links` proves what holds across the components:
  - a launch covers exactly its diamond level;
  - its flights use exactly the pool circles the vote flips;
  - the liquid pool's lock outlasts every flight;
  - a settled diamond shows as many coloured circles as the vote costs.

State that the source changes in place becomes classes:

- `Ledger.QuadraticVoteProvider`;
- `Animation.VoteAnimation`;
- `DiamondView.Diamond`;
- `PoolView.Pool`;
- `LiquidPoolView.LiquidPool`.

Their methods state the whole new state in terms of pure functions, and lemmas prove
what the source promises about those functions. Loops become methods with invariants:
`createDiamond`, `setViewBox`, the pool's circle list, and the droplet burst.

**Events and timers.** Each listener of a window event is a method. Its event detail is a
parameter. Timers, `performance.now()` and `requestAnimationFrame` become explicit `now`
parameters and explicit timer-firing methods. Random numbers are parameters.

**Admission as written.** The admission check at `QuadraticVoteProvider.tsx:103`
passes the step `voteAmount` to `canVote` as its `potentialVote`. Every other use of the
vote in the provider is the vote after the step: the commit adds `voteAmount` to
`q.vote` (line 108), and the flag refresh passes `q.vote + 1` and `q.vote - 1` (lines
116-117). The model follows the code in `Ledger.QuadraticVoteProvider.Vote`. The
reading that simulates `currentVote + voteAmount` is
`Ledger.QuadraticVoteProvider.VoteIntended` (see Findings). A ±1 step that the refreshed
flags leave enabled stays within budget even as written
(`Ledger.FlagRespectingStepStaysWithinBudget`).

## Model

| member | source | states |
|---|---|---|
| Ledger.CheckCredits | src/QuadraticVote/QuadraticVoteProvider.tsx:78-86 | credits pass exactly when 4 <= credits <= 225 (4 passes, although the message says "greater than 4"); below that the error is "Credits must be greater than 4", above it "Credits must be less than 226" |
| Ledger.Find | src/QuadraticVote/QuadraticVoteProvider.tsx:104 | the lookup fails exactly when no question has the id; a found question is in the list and has that id |
| Ledger.QuadraticVoteProvider.constructor | src/QuadraticVote/QuadraticVoteProvider.tsx:69-76 | the ledger starts with the given credits and questions, and shows credits minus the squared votes as available |
| Ledger.QuadraticVoteProvider.Create | src/QuadraticVote/QuadraticVoteProvider.tsx:69-86 | the provider is refused, with `CheckCredits`' message, exactly when the credits lie outside [4, 225]; otherwise a fresh ledger with the given credits and questions |
| Ledger.QuadraticVoteProvider.CanVote | src/QuadraticVote/QuadraticVoteProvider.tsx:88-100 | admits exactly when the other questions' squared votes, plus the square of the trial vote for each question with the id, fit in the credits |
| Ledger.QuadraticVoteProvider.RefreshFlags | src/QuadraticVote/QuadraticVoteProvider.tsx:113-119 | every question gets the up/down flags of a one-step trial against the budget |
| Ledger.QuadraticVoteProvider.Vote | src/QuadraticVote/QuadraticVoteProvider.tsx:102-157 | a refused step changes nothing and announces nothing; an admitted one commits the step, refreshes every flag and announces the launch for the change in spent credits |
| Ledger.QuadraticVoteProvider.VoteIntended | src/QuadraticVote/QuadraticVoteProvider.tsx:102-157 | the corrected vote: admission tests the vote the question would have after the step, and a ledger within budget stays within budget |
| Ledger.QuadraticVoteProvider.Apply | src/QuadraticVote/QuadraticVoteProvider.tsx:104-155 | the committed state is the refreshed commit of the step, and the launch is the one for the old and new spent credits |
| Ledger.QuadraticVoteProvider.Reset | src/QuadraticVote/QuadraticVoteProvider.tsx:159-168 | every vote is cleared, and the whole budget is available again |
| Ledger.SimulatedCostSplit | src/QuadraticVote/QuadraticVoteProvider.tsx:88-100 | the trial cost is the other questions' cost plus the trial vote's square for each question with the id |
| Ledger.UsedCreditsSplit | src/QuadraticVote/QuadraticVoteProvider.tsx:122-123 | the spent credits split into the target question's cost and the others' cost |
| Ledger.AbsentTarget | src/QuadraticVote/QuadraticVoteProvider.tsx:88-100 | for an id not in the list the trial costs what is already spent |
| Ledger.UniqueTarget | src/QuadraticVote/QuadraticVoteProvider.tsx:88-100 | with unique ids the target occurs once, and costs the square of its vote |
| Ledger.FindUnique | src/QuadraticVote/QuadraticVoteProvider.tsx:104-105 | with unique ids the lookup finds exactly that question and its vote |
| Ledger.SameVotesSameCost | src/QuadraticVote/QuadraticVoteProvider.tsx:122-123 | the spent credits depend only on the votes |
| Ledger.UniformVotesCost | src/QuadraticVote/QuadraticVoteProvider.tsx:74 | n questions all at vote v cost n·v² |
| Ledger.SixQuestionsAtTwo | src/QuadraticVote/QuadraticVoteProvider.tsx:73-76 | six questions at vote 2 leave 76 of 100 credits |
| Ledger.AdmissionRule | src/QuadraticVote/QuadraticVoteProvider.tsx:88-103 | the as-written admission compares the others' cost plus the square of the step (not of the new vote) with the credits; for a missing id it compares the credits already spent |
| Ledger.CommitCost | src/QuadraticVote/QuadraticVoteProvider.tsx:106-123 | a commit keeps ids unique, adds the step to the target's vote, and changes the spent credits by the difference of the squares |
| Ledger.FlagRespectingStepStaysWithinBudget | src/QuadraticVote/QuadraticVoteProvider.tsx:102-123 | from a ledger within budget with unique ids, a ±1 step whose refreshed flag is not disabled is admitted as written and leaves the ledger within budget |
| Ledger.EnabledStepFits | src/QuadraticVote/QuadraticVoteProvider.tsx:103 | when the current and the stepped vote both fit, the square of a unit step fits too |
| Ledger.CommitFits | src/QuadraticVote/QuadraticVoteProvider.tsx:106-123 | a commit fits the budget when the others' cost plus the target's new square does |
| Ledger.ZeroTargetStaysWithinBudget | src/QuadraticVote/QuadraticVoteProvider.tsx:102-111 | from a zero vote, the as-written admission keeps the ledger within budget |
| Ledger.AsWrittenOverspends | src/QuadraticVote/QuadraticVoteProvider.tsx:103 | one question at vote 10 with 100 credits admits a +1 step and ends at -21 available |
| Ledger.IntendedAdmissionMeansWithinBudget | src/QuadraticVote/QuadraticVoteProvider.tsx:88-103 | the corrected admission holds exactly when the new spent credits fit in the budget |
| Ledger.RefreshKeeps | src/QuadraticVote/QuadraticVoteProvider.tsx:113-119 | refreshing flags keeps every id, vote and extra field, the spent credits and unique ids |
| Ledger.FlagsMeaning | src/QuadraticVote/QuadraticVoteProvider.tsx:113-119 | "up disabled" holds exactly when vote+1 is unaffordable, and "down disabled" exactly when vote-1 is |
| Ledger.FlagsAtZeroBudget | src/QuadraticVote/QuadraticVoteProvider.tsx:113-119 | with the budget spent, up is disabled exactly at votes >= 0 and down exactly at votes <= 0 |
| Ledger.VoteOutcome | src/QuadraticVote/QuadraticVoteProvider.tsx:102-125 | after a step only the target's vote changes; every other question keeps its vote and id |
| Ledger.VoteTotals | src/QuadraticVote/QuadraticVoteProvider.tsx:121-130 | the new spent credits are the old minus the old square plus the new square |
| Ledger.VoteOnMissingId | src/QuadraticVote/QuadraticVoteProvider.tsx:102-130 | a step on an unknown id changes no vote and announces nothing |
| Ledger.LaunchFollowsLevel | src/QuadraticVote/QuadraticVoteProvider.tsx:121-155 | a committed step announces a launch toward the diamond when spending grows and toward the pool when it shrinks, naming the level and the change in credits |
| Ledger.LaunchOfStep | src/QuadraticVote/QuadraticVoteProvider.tsx:128-155 | a step from v to v' announces the launch for the levels abs(v) and abs(v') |
| Ledger.LaunchForLevels | src/QuadraticVote/QuadraticVoteProvider.tsx:128-155 | the launch's direction, start index, level and count follow from the old and new spending and levels |
| Ledger.SignFlipAnnouncesNothing | src/QuadraticVote/QuadraticVoteProvider.tsx:121-155 | with unique ids, a committed step announces no launch exactly when it keeps the spent credits, and a sign flip from v to -v keeps them |
| Ledger.NoLaunchIffSameCost | src/QuadraticVote/QuadraticVoteProvider.tsx:128-155 | for a step from v to v + s, no launch exactly when the spent credits stay; a step s = -2v keeps them |
| Ledger.UnitStepCount | src/QuadraticVote/QuadraticVoteProvider.tsx:128-155 | a committed ±1 step launches exactly 2L-1 units for its level L >= 1, or nothing |
| Ledger.UnitStepLaunch | src/QuadraticVote/QuadraticVoteProvider.tsx:128-155 | a ±1 step from any vote launches exactly 2L-1 units for its level L >= 1, or nothing |
| Ledger.SquareAbs | src/QuadraticVote/QuadraticVoteProvider.tsx:93-95 | a vote and its magnitude cost the same |
| Ledger.ResetClearsEverything | src/QuadraticVote/QuadraticVoteProvider.tsx:159-168 | reset zeroes every vote and both flags, keeps ids and extras, and leaves nothing spent |
| Ledger.ResetIdempotent | src/QuadraticVote/QuadraticVoteProvider.tsx:159-168 | resetting twice equals resetting once |
| Geometry.CreateDiamond | src/QuadraticVote/utils.tsx:42-74 | the loop builds exactly the closed-form layout of levels 1 to floor(sqrt(credits)) |
| Geometry.AddLevel | src/QuadraticVote/utils.tsx:51-70 | one pass of the inner loop appends exactly the 2L - 1 closed-form circles of level L |
| Geometry.ZigZagStep | src/QuadraticVote/utils.tsx:67-69 | each step moves 2r right and flips the circle below the row on even positions; otherwise it returns to the row |
| Geometry.MaxLevelIs | src/QuadraticVote/utils.tsx:48-50 | the number of levels is the m with m² <= credits < (m+1)² |
| Geometry.MaxLevelBounds | src/QuadraticVote/utils.tsx:48-50 | the number of levels m satisfies m² <= credits < (m+1)², or m = 0 when credits < 1 |
| Geometry.LayoutSize | src/QuadraticVote/utils.tsx:50-55 | m levels hold m² circles |
| Geometry.LayoutAt | src/QuadraticVote/utils.tsx:50-65 | every circle of the layout is the expected circle of its level and position |
| Geometry.LevelRange | src/QuadraticVote/utils.tsx:54 | level L takes positions (L-1)² to L²-1 |
| Geometry.LevelsAscend | src/QuadraticVote/utils.tsx:50-56 | levels never decrease along the layout |
| Geometry.LevelContents | src/QuadraticVote/utils.tsx:54-65 | circle ai of level L is at position (L-1)²+ai, with level L, data-level "id-L", its centre, radius and key |
| Geometry.KeyInjective | src/QuadraticVote/utils.tsx:58 | a key determines its level and position |
| Geometry.KeysDistinct | src/QuadraticVote/utils.tsx:56-58 | no two circles of a layout share a key |
| Geometry.SetViewBox | src/QuadraticVote/utils.tsx:3-40 | no box without a complete circle; otherwise the box is the tightest one enclosing every complete circle, with non-negative size for non-negative radii |
| Geometry.NoCompleteSnoc | src/QuadraticVote/utils.tsx:15 | a list has a complete circle exactly when a prefix or the last one does |
| Geometry.EnclosesFirst | src/QuadraticVote/utils.tsx:10-27 | the first complete circle's box encloses the list so far |
| Geometry.EnclosesAdd | src/QuadraticVote/utils.tsx:18-27 | widening the box by each complete circle keeps it the tightest enclosure |
| Geometry.EnclosesSkip | src/QuadraticVote/utils.tsx:15 | an incomplete circle is skipped without changing the box |
| Geometry.EnclosesWidth | src/QuadraticVote/utils.tsx:31-32 | with non-negative radii the box has non-negative width and height |
| Geometry.EnclosesUnique | src/QuadraticVote/utils.tsx:3-40 | the tightest enclosing box is unique |
| Geometry.DiscsOf | src/QuadraticVote/utils.tsx:57-64 | every layout circle is measured as a complete disc with its own centre and radius |
| Geometry.DiamondViewBox | src/QuadraticVote/Diamond.tsx:104-120 | no box for a diamond with no levels; otherwise the closed-form box of the diamond |
| Geometry.CircleInBox | src/QuadraticVote/utils.tsx:51-69 | every circle of every level lies within the diamond's box |
| Geometry.DiamondEncloses | src/QuadraticVote/utils.tsx:3-40 | the closed-form box encloses the layout |
| Geometry.DiamondEdges | src/QuadraticVote/utils.tsx:3-40 | each edge of the closed-form box is touched by some circle |
| Geometry.DiamondContains | src/QuadraticVote/utils.tsx:3-40 | every circle of the layout lies within the closed-form box |
| Text.NatToString | src/QuadraticVote/utils.tsx:58-62 | a number prints as a non-empty string of digits |
| Text.IntToString | src/QuadraticVote/utils.tsx:58-62 | non-negative numbers print as digits, negative ones as "-" and the digits of the magnitude |
| Text.ParseIntOfNatToString | src/QuadraticVote/Diamond.tsx:171-172 | parsing a printed number gives the number back |
| Text.Split | src/QuadraticVote/Diamond.tsx:171 | splitting yields at least one piece |
| Text.SplitDigitPair | src/QuadraticVote/Diamond.tsx:171 | "a-b" with digit strings a and b splits into exactly [a, b] |
| Text.SplitJoin | src/QuadraticVote/Diamond.tsx:171 | splitting at a separator splits each side |
| Text.SplitNoSeparator | src/QuadraticVote/Diamond.tsx:171 | a string without the separator is one piece |
| Text.SplitAtFirstSeparator | src/QuadraticVote/Diamond.tsx:171 | the first piece ends at the first separator |
| Text.DashPairInjective | src/QuadraticVote/Diamond.tsx:174 | "m-n" determines m and n |
| Text.NatToStringInjective | src/QuadraticVote/utils.tsx:58 | distinct numbers print differently |
| Animation.InsertByAi | src/QuadraticVote/VoteAnimation.tsx:63-67 | insertion adds exactly one element and keeps the rest |
| Animation.InsertKeepsSorted | src/QuadraticVote/VoteAnimation.tsx:63-67 | inserting into a list sorted by position keeps it sorted |
| Animation.SortByAiSorts | src/QuadraticVote/VoteAnimation.tsx:52-69 | the level's circles are sorted by position, and the result is a permutation of the input |
| Animation.Plan | src/QuadraticVote/VoteAnimation.tsx:127-166 | one flight per unit that has a circle, the i-th flight being unit i's flight with id first+i |
| Animation.Schedule | src/QuadraticVote/VoteAnimation.tsx:136-198 | three window events per flight |
| Animation.VoteAnimation.constructor | src/QuadraticVote/VoteAnimation.tsx:76-77 | no flights and a zero id counter |
| Animation.LaunchFlights | src/QuadraticVote/VoteAnimation.tsx:136-268 | the handler's loop yields exactly the plan's flights and events, and advances the id counter by the number of units that found a circle |
| Animation.VoteAnimation.Launch | src/QuadraticVote/VoteAnimation.tsx:122-272 | appends the plan of the sorted level circles to the flights, advances the id counter by its length, and keeps ids increasing and below the counter |
| Animation.VoteAnimation.Step | src/QuadraticVote/VoteAnimation.tsx:102-111 | drops exactly the flights that have ended, keeping order and id invariants |
| Animation.PlanIds | src/QuadraticVote/VoteAnimation.tsx:157-158 | plan ids are consecutive from the counter |
| Animation.AppendKeepsValid | src/QuadraticVote/VoteAnimation.tsx:271 | appending a freshly numbered plan keeps ids increasing and below the counter |
| Animation.PlanShape | src/QuadraticVote/VoteAnimation.tsx:128-166 | flight i leaves (or returns to) pool circle start+i, targets the i-th circle by position, starts now, lasts 650 ms after a 60·i ms delay |
| Animation.NothingResolved | src/QuadraticVote/VoteAnimation.tsx:132-139 | a level with no circles plans no flight and no event |
| Animation.ColorFallback | src/QuadraticVote/VoteAnimation.tsx:162 | a flight takes the launch colour, else the pool circle's fill, else the default |
| Animation.ScheduleAt | src/QuadraticVote/VoteAnimation.tsx:145-267 | unit i's start event fires at now; its early settle at now+150+60i ends the surface it leaves and its final settle at now+650+60i the surface it reaches: pool then diamond toward the diamond, diamond then pool toward the pool |
| Animation.RemainingMembers | src/QuadraticVote/VoteAnimation.tsx:105-107 | a flight remains exactly when it was there and has not ended |
| Animation.RemainingConcat | src/QuadraticVote/VoteAnimation.tsx:105-107 | pruning distributes over concatenation |
| Animation.RemainingSublist | src/QuadraticVote/VoteAnimation.tsx:105-107 | pruning never lengthens the list, keeps ids increasing, and keeps only flights that were there |
| Animation.RemainingIdempotent | src/QuadraticVote/VoteAnimation.tsx:102-109 | pruning twice at the same time equals pruning once |
| Animation.RemainingLater | src/QuadraticVote/VoteAnimation.tsx:102-109 | pruning now and later equals pruning later |
| DiamondView.VoteLevel | src/QuadraticVote/Diamond.tsx:109-111 | the filled depth is the magnitude of the question's vote |
| DiamondView.VoteColor | src/QuadraticVote/Diamond.tsx:112-118 | positive votes take the positive colour, negative ones the negative colour, zero the neutral one |
| DiamondView.ParsedLevelRecovers | src/QuadraticVote/Diamond.tsx:171 | for a non-negative id, reading the data-level gives the level back |
| DiamondView.NegativeIdMisreadsLevel | src/QuadraticVote/Diamond.tsx:171 | for a negative id, the source's reading gives the id's magnitude instead of the level |
| DiamondView.MisreadExample | src/QuadraticVote/Diamond.tsx:171 | id -3 at level 2 reads as level 3 |
| DiamondView.ParsedLevelLastRecovers | src/QuadraticVote/Diamond.tsx:171 | reading the last piece gives the level back for every id, and agrees with the source for non-negative ids |
| DiamondView.Fill | src/QuadraticVote/Diamond.tsx:173-182 | a circle is drawn in the vote colour or the neutral colour |
| DiamondView.CountFilledConcat | src/QuadraticVote/Diamond.tsx:170-189 | coloured circles add up over concatenation |
| DiamondView.FilledFollowsLevels | src/QuadraticVote/Diamond.tsx:170-173 | with nothing in flight, circles whose data-level reads back their level are coloured exactly when that level is within the vote's depth |
| DiamondView.LayoutLevelsParse | src/QuadraticVote/Diamond.tsx:171 | for a non-negative id every circle of the layout reads back its own level |
| Geometry.LayoutLevelUpTo | src/QuadraticVote/utils.tsx:50-56 | circle j of an m-level layout is on a level up to v exactly when j < min(v, m)² |
| Geometry.LayoutUpTo | src/QuadraticVote/utils.tsx:50-56 | an m-level layout has min(v, m)² circles on the levels up to v |
| Geometry.CountUpToPrefix | src/QuadraticVote/utils.tsx:50-56 | when exactly the first n circles lie on a level up to v, n of them do |
| DiamondView.ColouredCount | src/QuadraticVote/Diamond.tsx:170-189 | with nothing in flight the diamond colours min(v, m)² circles |
| DiamondView.NoVoteAllNeutral | src/QuadraticVote/Diamond.tsx:111-192 | with no vote, the shine is active and every circle is neutral |
| DiamondView.Started | src/QuadraticVote/Diamond.tsx:51-68 | a start for this diamond marks the circle arriving or departing; others leave the marks alone |
| DiamondView.Ended | src/QuadraticVote/Diamond.tsx:70-94 | an end for this diamond clears the arriving (or departing) mark; others leave the marks alone |
| DiamondView.Diamond.constructor | src/QuadraticVote/Diamond.tsx:47-48 | no circle is marked in flight |
| DiamondView.Diamond.OnAnim | src/QuadraticVote/Diamond.tsx:51-68 | the marks become those of the start event |
| DiamondView.Diamond.OnAnimDiamond | src/QuadraticVote/Diamond.tsx:70-94 | the marks become those of the end event |
| DiamondView.ArrivalRoundTrip | src/QuadraticVote/Diamond.tsx:63-86 | a circle marked arriving is drawn neutral during the flight, and the settle restores the marks as they were |
| DiamondView.DepartureRoundTrip | src/QuadraticVote/Diamond.tsx:65-92 | a departing circle keeps the vote colour during the flight, and the settle restores the marks as they were |
| PoolView.PoolFill | src/QuadraticVote/Pool.tsx:109-112 | a pool circle is drawn in the credit or the circle colour, the latter only when unused and not in flight |
| PoolView.Circles | src/QuadraticVote/Pool.tsx:100-127 | one circle per credit, the i-th being the circle at index i |
| PoolView.PoolIdsDistinct | src/QuadraticVote/Pool.tsx:116 | distinct indices get distinct element ids |
| PoolView.PositionsDistinct | src/QuadraticVote/Pool.tsx:104-107 | distinct indices sit at distinct positions |
| PoolView.UsedCount | src/QuadraticVote/Pool.tsx:109 | exactly `used` circles count as used, in either direction |
| PoolView.NothingUsedAllCircleColor | src/QuadraticVote/Pool.tsx:109-110 | with nothing spent and nothing in flight every circle has the circle colour |
| PoolView.FlippedByIncrease | src/QuadraticVote/Pool.tsx:109 | more spending flips exactly the circles from the old to the new count |
| PoolView.PoolStarted | src/QuadraticVote/Pool.tsx:52-66 | a start with a pool index marks it departing (or arriving); others leave the marks alone |
| PoolView.PoolEnded | src/QuadraticVote/Pool.tsx:68-90 | an end clears that index's mark of its direction |
| PoolView.Pool.constructor | src/QuadraticVote/Pool.tsx:48-49 | no circle is marked in flight |
| PoolView.Pool.OnAnim | src/QuadraticVote/Pool.tsx:52-66 | the marks become those of the start event |
| PoolView.Pool.OnAnimPool | src/QuadraticVote/Pool.tsx:68-90 | the marks become those of the end event |
| PoolView.DepartureRoundTrip | src/QuadraticVote/Pool.tsx:61-82 | a departing pool circle shows the credit colour until its early settle, which restores the marks |
| PoolView.ArrivalRoundTrip | src/QuadraticVote/Pool.tsx:63-88 | a returning pool circle shows the credit colour until it lands, and landing restores the marks |
| LiquidPoolView.ClampInt | src/QuadraticVote/LiquidPool.tsx:120-123 | the result is trunc(n) when within [lo, hi], lo below it, hi above it, and lo when the range is empty |
| LiquidPoolView.ClampIdempotent | src/QuadraticVote/LiquidPool.tsx:120-123 | clamping a clamped value changes nothing |
| Arith.Trunc | src/QuadraticVote/LiquidPool.tsx:121 | truncation rounds toward zero |
| LiquidPoolView.SafeKeySuffix | src/QuadraticVote/LiquidPool.tsx:125-127 | the result holds only ASCII letters, digits, `_` and `-`, and is no longer than the input |
| LiquidPoolView.SafeKeySuffixConcat | src/QuadraticVote/LiquidPool.tsx:125-127 | filtering distributes over concatenation |
| LiquidPoolView.SafeKeySuffixCounts | src/QuadraticVote/LiquidPool.tsx:125-127 | every allowed character keeps its count, and every other one disappears |
| LiquidPoolView.SafeKeySuffixKeeps | src/QuadraticVote/LiquidPool.tsx:125-127 | a string of allowed characters passes unchanged |
| LiquidPoolView.SafeKeySuffixIdempotent | src/QuadraticVote/LiquidPool.tsx:125-127 | filtering twice equals filtering once |
| LiquidPoolView.Scope | src/QuadraticVote/LiquidPool.tsx:169 | the scope is "qv-liquidpool-" followed by allowed characters |
| LiquidPoolView.KeySuffix | src/QuadraticVote/LiquidPool.tsx:170 | the key suffix is non-empty and made of allowed characters, "qv" when the filtered id is empty |
| LiquidPoolView.KeySuffixStable | src/QuadraticVote/LiquidPool.tsx:170 | the key suffix passes the filter unchanged, and taking the key suffix of it changes nothing |
| LiquidPoolView.PoolEndDisplayed | src/QuadraticVote/LiquidPool.tsx:254-260 | a return adds one and a departure removes one, clamped to the gauge |
| LiquidPoolView.PoolEndRoundTrip | src/QuadraticVote/LiquidPool.tsx:254-260 | inside the gauge, a departure then a return restores the value |
| LiquidPoolView.Resynced | src/QuadraticVote/LiquidPool.tsx:220-225 | while locked the value is kept; after the lock an in-range value is shown as is; the gauge range holds either way |
| LiquidPoolView.LaunchUnits | src/QuadraticVote/LiquidPool.tsx:233 | at least one unit, the truncated count otherwise |
| LiquidPoolView.LockMs | src/QuadraticVote/LiquidPool.tsx:236 | the lock lasts at least 750 ms and grows by 60 ms per unit |
| LiquidPoolView.LockUntilAfter | src/QuadraticVote/LiquidPool.tsx:237 | a launch never moves the lock earlier, covers its own window, and is either the old lock or that window's end |
| LiquidPoolView.LockOnlyGrows | src/QuadraticVote/LiquidPool.tsx:235-237 | after any sequence of launches the lock is no earlier than before and covers every launch's window |
| LiquidPoolView.AnimStarted | src/QuadraticVote/LiquidPool.tsx:266-270 | a start adds one flight in its direction |
| LiquidPoolView.PoolLanded | src/QuadraticVote/LiquidPool.tsx:263 | a return end removes one inbound flight, never below zero |
| LiquidPoolView.DiamondLanded | src/QuadraticVote/LiquidPool.tsx:282-286 | a departure end removes one outbound flight, never below zero |
| LiquidPoolView.InFlightRoundTrip | src/QuadraticVote/LiquidPool.tsx:263-286 | a start and its end in the same direction restore the in-flight counts |
| LiquidPoolView.DryChoice | src/QuadraticVote/LiquidPool.tsx:309-322 | wet exactly with credits left, dry exactly when empty with no delay, drying exactly when empty with a positive delay |
| LiquidPoolView.JsRem | src/QuadraticVote/LiquidPool.tsx:616 | the remainder takes the dividend's sign and is smaller than the divisor in magnitude |
| LiquidPoolView.JsRemQuotient | src/QuadraticVote/LiquidPool.tsx:616 | the remainder completes a division with an integer quotient |
| LiquidPoolView.SeedBaseRange | src/QuadraticVote/LiquidPool.tsx:614-617 | the seed base lies in [0, 997) and is the pool index modulo 997 |
| LiquidPoolView.SeedInUnit | src/QuadraticVote/LiquidPool.tsx:618-643 | every droplet seed lies in [0, 1) |
| LiquidPoolView.BurstSize | src/QuadraticVote/LiquidPool.tsx:613 | the burst has at least one droplet |
| LiquidPoolView.Burst | src/QuadraticVote/LiquidPool.tsx:638-647 | n droplets with consecutive ids from the counter |
| LiquidPoolView.Ids | src/QuadraticVote/LiquidPool.tsx:651 | the id set holds exactly the droplets' ids |
| LiquidPoolView.RemoveDrops | src/QuadraticVote/LiquidPool.tsx:652 | removal keeps only droplets whose id is not in the set |
| LiquidPoolView.RemoveDropsMembers | src/QuadraticVote/LiquidPool.tsx:652 | a droplet remains exactly when it was there and its id is not removed |
| LiquidPoolView.RemoveDropsConcat | src/QuadraticVote/LiquidPool.tsx:652 | removal distributes over concatenation |
| LiquidPoolView.CleanupUndoesBurst | src/QuadraticVote/LiquidPool.tsx:648-653 | removing a burst's ids removes exactly that burst from around it |
| LiquidPoolView.LiquidPool.constructor | src/QuadraticVote/LiquidPool.tsx:182-192 | starts wet, with nothing in flight, no lock, no droplets, and the clamped available credits shown |
| LiquidPoolView.LiquidPool.Resync | src/QuadraticVote/LiquidPool.tsx:220-225 | the shown value becomes the resynced one and nothing else changes |
| LiquidPoolView.LiquidPool.OnLaunch | src/QuadraticVote/LiquidPool.tsx:230-244 | the lock is extended and a resync is queued at now + lock + 20 with the captured count |
| LiquidPoolView.LiquidPool.FireResync | src/QuadraticVote/LiquidPool.tsx:239-243 | the queued resync fires with the count captured at launch and is removed from the queue |
| LiquidPoolView.LiquidPool.FireResyncIntended | src/QuadraticVote/LiquidPool.tsx:239-243 | the corrected resync uses the available credits at firing time |
| LiquidPoolView.LiquidPool.OnPoolEnd | src/QuadraticVote/LiquidPool.tsx:246-264 | the gauge moves one step toward the landing's direction, a returning flight lands, and nothing else changes |
| LiquidPoolView.LiquidPool.OnAnimStart | src/QuadraticVote/LiquidPool.tsx:266-270 | one flight is added in its direction |
| LiquidPoolView.LiquidPool.OnDiamondEnd | src/QuadraticVote/LiquidPool.tsx:282-286 | one outbound flight lands |
| LiquidPoolView.LiquidPool.SyncDry | src/QuadraticVote/LiquidPool.tsx:300-330 | the old timer is cleared; the state becomes the dry choice, with a timer exactly when drying |
| LiquidPoolView.LiquidPool.DryTimerFires | src/QuadraticVote/LiquidPool.tsx:322 | a due drying timer makes the pool dry and clears itself |
| LiquidPoolView.LiquidPool.OnBurst | src/QuadraticVote/LiquidPool.tsx:606-649 | appends a burst of consecutively numbered droplets and returns their ids |
| LiquidPoolView.LiquidPool.Cleanup | src/QuadraticVote/LiquidPool.tsx:650-653 | removes exactly the droplets with the given ids |
| LiquidPoolView.StaleResyncShowsOldCount | src/QuadraticVote/LiquidPool.tsx:239-243 | on a fresh 100-credit pool after one +1 vote, the resync at 770 ms shows 100 while 99 are available |
| LiquidPoolView.StaleResyncDisagrees | src/QuadraticVote/LiquidPool.tsx:239-243 | after the lock, whenever the count changed since capture, the as-written resync misses the available credits and the corrected one shows them |
| Links.LaunchCoversLevel | src/QuadraticVote/VoteAnimation.tsx:128-139 | a unit-step launch on a full level plans one flight per circle of the level |
| Links.LaunchLevelInLayout | src/QuadraticVote/VoteAnimation.tsx:132-135 | the circles a launch names are the 2L-1 circles of level L in the layout |
| Links.LaunchFliesFlippedCircles | src/QuadraticVote/QuadraticVoteProvider.tsx:131-154 | every flight uses a pool circle the vote flips, and with all units placed every flipped circle gets a flight |
| Links.LockOutlastsFlights | src/QuadraticVote/LiquidPool.tsx:235-237 | every flight of a launch ends before the lock it opens |
| Links.LockOutlastsEvents | src/QuadraticVote/LiquidPool.tsx:235-237 | every window event of a launch fires inside the lock it opens |
| Links.DiamondShowsCost | src/QuadraticVote/Diamond.tsx:170-189 | a settled diamond shows exactly vote² coloured circles |
| Links.PoolShowsSpent | src/QuadraticVote/Pool.tsx:47-109 | the pool shows exactly the spent credits as used |

## Left out

- Everything on floating point is left out: drop physics, `clamp01`, `coreRatio`, mass, `coreScale`, easing, and the velocity and wobble geometry. Seeds are exact reals, and positions are integers.
- DOM queries, screen coordinates, CSS injection, JSX rendering and portals are left out. A query's result becomes a parameter: the level circles found, the pool fills, the measured discs.
- Real timers, `requestAnimationFrame` and `performance.now()` are left out. Time is an explicit `now`, and each timer that fires is an explicit method call.
- React render and effect ordering is left out. An effect is a method the caller invokes after the state change it depends on.
- The `if (!d) return` guards on missing event details are left out. Event details are always present in the model.
- `parseInt` is modelled on strings of digits with an optional sign. Leading whitespace and non-decimal prefixes are not modelled.
- The `lastVectorRef` stream direction is left out. It only comes from screen geometry.
- `Math.random` becomes a parameter.
- The `useQuadraticVote` hook and the `index` re-exports only pass values through, so they are not modelled.
- Geometry.CreateDiamond: the radius is a `nat`. For a negative radius the closed form of the zig-zag no longer matches the source's `Math.abs` steps.
- PoolView.Circles: requires `columns > 0`. With zero columns the source divides by zero and gets NaN positions, and JavaScript `%` and `Math.floor` differ from Dafny's on negative columns.
- LiquidPoolView.LiquidPool.OnBurst: the droplets' seeds are exact reals. The velocity vector and lifetime jitter are not modelled.
- LiquidPoolView.LiquidPool.SyncDry: `dryOutMs` is an integer.
- Animation.Units: the launch count is an integer, as every ledger launch's is. A fractional count from a foreign sender is not modelled.
- Ledger.QuadraticVoteProvider.constructor: accepts any credits. The source's refusal of credits outside [4, 225] is modelled by `CheckCredits` and by `Create`, which builds the ledger only when the check passes.
- Ledger.UniqueTarget: it and the other ledger lemmas that need unique ids assume what the source never checks. The source's behaviour with duplicate ids is still modelled by `Vote` and `CanVote`.

## Findings

| source | as written | input that shows it | evidently intended | confidence | as-written member | corrected member |
|---|---|---|---|---|---|---|
| src/QuadraticVote/QuadraticVoteProvider.tsx:103 | admission tests `canVote(questions, id, voteAmount)`, the square of the step | one question at vote 10, 100 credits, vote +1: admitted, leaving -21 available | test the vote after the step, `currentVote + voteAmount`, the would-be vote that the commit (line 108) and the flag refresh (lines 116-117) use | not executed | Ledger.AsWrittenOverspends | Ledger.QuadraticVoteProvider.VoteIntended |
| src/QuadraticVote/LiquidPool.tsx:239-243 | the resync timer uses the `availableCredits` captured when the launch listener ran, i.e. before the vote's new count reached the effect | fresh 100-credit pool, one +1 vote: at 770 ms the gauge is reset to 100 while 99 credits are available | resync to the available credits at the time the timer fires | not executed | LiquidPoolView.StaleResyncShowsOldCount | LiquidPoolView.LiquidPool.FireResyncIntended |
| src/QuadraticVote/Diamond.tsx:171 | the level is read as `split('-')[1]` of `"id-level"` | question id -3, level 2: `"-3-2"` splits into `["", "3", "2"]` and reads as level 3 | read the last piece, the level | not executed | DiamondView.NegativeIdMisreadsLevel | DiamondView.ParsedLevelLastRecovers |
