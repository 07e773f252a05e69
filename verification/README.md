# Pitch control: a Dafny model of the engine's decision logic

This project models the core of a football pitch-control engine. It follows
the kinematic model of Spearman (2018). Given one frame of tracking data, the
engine splits the pitch into a grid of cells. For each cell it decides how
likely each team is to control a ball played there. It also credits every
player's share of that control to running contribution counters, split by
possession role (attacking or defending) and by third of the pitch.

The model covers the engine's discrete and geometric logic:

- building the grid and flagging a column's third;
- the offside filter;
- the closest player of a side;
- the cell solver's ball guard, its two fast-path rules and the pruning of far-away players;
- the frame-wide checksum guard;
- team bookkeeping: building the roster, setting possession, the in-frame filter, and routing control into the contribution buckets;
- player construction and per-frame and per-cell state updates;
- the data helpers: goalkeeper and pitch-half detection, column-name parsing, `remove_player`, row sub-sampling and the output file name.

Positions and times are `real`. A missing (NaN) coordinate is `None` of an
`Option`. The exceptions the source raises, and those a Python built-in
raises on a missing key, a missing goalkeeper or a short list of defenders,
are an `Err` of a `Result`. Two built-in failures have no counterpart; they
are listed under "Left out".

Modules, one per file:

| file | module | models |
|---|---|---|
| common.dfy | `Common` | options, results, the error kinds, vectors, a frame row, abstract norm and exponential |
| seqs.dfy | `Seqs` | order-preserving filters, first arg-min, second largest |
| strings.dfy | `Strings` | Python's `str` ordering, `np.unique`, `str.split`, prefixes and digit runs |
| params.dfy | `Parameters` | the engine's parameter set and its derived cutoffs |
| player.dfy | `PlayerModel` | `Player` (src/pitch_control/player.py) |
| team.dfy | `TeamModel` | `Team` (src/pitch_control/team.py) |
| data_utils.dfy | `DataUtils` | helpers of src/data/utils.py |
| field_grid.dfy | `FieldGrid` | `calculate_cells` and `get_flag_zone` |
| offside.dfy | `Offside` | `check_offsides` |
| pitch_control.dfy | `PitchControl` | the closest player, the cell solver's shell, the checksum, and one frame |

## Behaviour as coded

A few behaviours of the code are easy to misread. The model follows the
code in each of them.

- **Roster order.** The roster is built with `np.unique`, so players are in
  ascending jersey-string order, not in the order their columns appear
  (src/pitch_control/team.py:53). `TeamModel.Roster` models the sorted order.
- **Offside worked example.** Take a goalkeeper at x = -50, a defender at
  -30, the ball at -40 and a tolerance of 0.2. The code orients every x by
  the goalkeeper's sign (-1). That gives an oriented line of
  max(30, 40, 0) + 0.2 = 40.2. Both attackers, at -29 and -28, have oriented
  x below the line, so both are kept. `Offside.WorkedExampleLine` and
  `Offside.WorkedExampleKeepsBoth` state what the code computes.
- **Fewer than two defenders.** The code indexes `[1]` of the sorted
  defender list (src/pitch_control/pitch_control.py:345-346), so fewer than
  two in-frame defenders is an IndexError. It has no fallback line. The
  model reports `IndexOutOfRange`. The same holds when no defender carries
  the goalkeeper flag (line 340).
- **The checksum is one-sided.** Only a field-wide average *below* one by
  more than the tolerance fails (lines 150-152). A surplus always passes
  (`PitchControl.CoveredGridPasses`).
- **Uneven thirds.** The zone thresholds are nx/3 and 2nx/3 as reals. With
  the default 50 columns the thirds are 17, 17 and 16 columns wide. After the
  right-half mirroring, the two teams' "first third" therefore differ in
  size (`FieldGrid.FiftyColumnsAsymmetric`).
- **A ball owned by neither team.** Both teams are then labelled
  `defending`. The engine still takes away as the attacking side, and
  away's control is credited to its *defending* buckets
  (`PitchControl.SidesFromBallOwner`).

## Model

| member | source | states |
|---|---|---|
| Parameters.DefaultParamsValid | src/pitch_control/pitch_control.py:44-66 | the default constants and the derived rates and cutoffs form a usable parameter set: the speeds, sigma, the rates and both time-to-control cutoffs are positive |
| Parameters.CutoffPositive | src/pitch_control/pitch_control.py:63-66 | a time-to-control cutoff `veto * ln10 * (sqrt3 sigma / pi + 1/lambda)` is positive for positive constants |
| Parameters.CutoffShrinksWithLambda | src/pitch_control/pitch_control.py:63-66 | a larger control rate gives a strictly shorter cutoff |
| Parameters.DefaultCutoffsCoincide | src/pitch_control/pitch_control.py:49-66 | with kappa_def = 1 the attacking and defending cutoffs are equal, and lambda_gk is three times lambda_def |
| PlayerModel.NewPlayer | src/pitch_control/player.py:25-50 | fails with a KeyError exactly when individual speeds are requested and the jersey is missing; otherwise vmax comes from the table or the global speed, lambda_def is lambda_gk exactly for the goalkeeper, lambda_att is shared, the logistic constant is negative and all accumulators are zero |
| PlayerModel.NewPlayerStartsAtZero | src/pitch_control/player.py:38-44 | a new player's total and all six zone buckets are zero |
| PlayerModel.UpdatePlayer | src/pitch_control/player.py:52-60 | the position is the frame's x and y; the player is in frame iff neither coordinate is missing; a velocity with a missing component becomes (0, 0), otherwise it is copied; nothing else changes |
| PlayerModel.UpdatePlayerLastWins | src/pitch_control/player.py:52-60 | updating from two frames in turn is the same as updating from the second |
| PlayerModel.UpdateTimeToIntercept | src/pitch_control/player.py:62-71 | the per-cell scratch is reset to 0; the time is present iff the position is; (time - reaction) * vmax is the distance from the reaction point, so time >= reaction time when vmax > 0 |
| PlayerModel.TimeToInterceptLastWins | src/pitch_control/player.py:62-71 | preparing for one cell and then another is preparing for the second only |
| PlayerModel.FartherTargetTakesLonger | src/pitch_control/player.py:69-71 | a target farther from the reaction point is not reached sooner |
| PlayerModel.ProbabilityInterceptBall | src/pitch_control/player.py:73-80 | the logistic probability is strictly between 0 and 1 and is exactly 1/2 at T = time to intercept |
| PlayerModel.ProbabilityInterceptMonotone | src/pitch_control/player.py:79 | for an increasing exponential the probability never decreases with T |
| TeamModel.TeamColumnIds | src/pitch_control/team.py:53 | fails iff some column with the team's 4-letter prefix has no second '_' field; otherwise every such field is listed and every listed id comes from such a column |
| Strings.Unique | src/pitch_control/team.py:53 | the `np.unique` result is strictly ascending and has exactly the input's elements |
| Strings.StrictlySortedUnique | src/pitch_control/team.py:53 | two strictly ascending lists with the same elements are equal, so `Unique` is fully determined |
| TeamModel.InitializePlayers | src/pitch_control/team.py:55-61 | fails iff a jersey is missing from the individual speeds table; otherwise one player per jersey, in order, with the goalkeeper flag set iff the jersey is gk_id |
| TeamModel.Roster | src/pitch_control/team.py:50-61 | a team name with no columns fails with that error; otherwise the roster fails iff individual speeds are asked for and some jersey has none, as a KeyError; the roster's jerseys are `np.unique` of the team's column fields, and each player is exactly the `Player` built for its jersey, flagged goalkeeper iff jersey == gk_id, with the team name and zero accumulators |
| TeamModel.UpdateTeam | src/pitch_control/team.py:63-68 | KeyError iff a player's kinematic column is missing; possession is attacking iff the team's name is the ball owner; every player is updated and nothing else changes |
| TeamModel.UpdateTeamKeepsRoster | src/pitch_control/team.py:63-68 | the frame update keeps every jersey, goalkeeper flag, team name and accumulator |
| TeamModel.NewTeam | src/pitch_control/team.py:30-48 | succeeds only for "home" or "away" with goalkeepers found; the goalkeeper jersey and half are those `find_goalkeeper` reports for the team; possession follows the ball owner; players are the roster, flagged iff jersey == gk_id |
| TeamModel.NewTeamStages | src/pitch_control/team.py:30-48 | the first failing stage decides the error: the goalkeeper search's own error, a KeyError for a name that is neither side, the roster's own error, then a KeyError exactly when the first frame lacks some player's kinematics; on success each player is its roster entry updated by the first frame |
| TeamModel.NewTeamHasOneGoalkeeper | src/pitch_control/team.py:53-58 | the roster's jerseys are strictly ascending (hence distinct) and exactly one player is flagged goalkeeper |
| TeamModel.FlaggedOnce | src/pitch_control/team.py:53-58 | a roster of distinct jerseys, flagged by jersey, has exactly one goalkeeper when the goalkeeper jersey is on it |
| TeamModel.InFramePlayers | src/pitch_control/team.py:75-78 | an order-preserving subsequence of the roster holding exactly the in-frame players |
| TeamModel.InFrameAfterUpdate | src/pitch_control/team.py:63-68 | after a frame update a player is in frame iff both its coordinates are present in the frame |
| TeamModel.UpdateTeamTimes | src/pitch_control/team.py:70-73 | every player's time is computed for the target; nothing else of the team changes |
| TeamModel.InFramePlayersHaveTimes | src/pitch_control/team.py:70-78 | after the time update every in-frame player has a time and a zero scratch |
| TeamModel.OrientedInvolution | src/pitch_control/team.py:91-97 | mirroring a third twice is the identity; the second third is its own mirror; only the right half mirrors |
| TeamModel.Credit | src/pitch_control/team.py:84-111 | exactly the named bucket grows by v, the others and the total are unchanged, and the bucket sum grows by v |
| TeamModel.Accumulate | src/pitch_control/team.py:80-111 | the total grows by the scratch; for left/right exactly the bucket (possession role, team-relative third) grows by it and the bucket sum grows with the total; for the '' half no bucket moves; nothing else changes |
| TeamModel.AccumulateMirror | src/pitch_control/team.py:91-97 | crediting a right-half team for a third equals crediting a left-half team for the mirrored third |
| TeamModel.AccumulateChangesOneBucket | src/pitch_control/team.py:84-111 | with a non-zero scratch, a bucket changes iff it is the one for the possession role and the team-relative third |
| TeamModel.AccumulateTeam | src/pitch_control/team.py:80-82 | every roster player is accumulated with the team's half and possession; the team is otherwise unchanged |
| TeamModel.AccumulateTeamTotals | src/pitch_control/team.py:81-82 | over a roster, the sum of totals grows by exactly the sum of the scratch values |
| TeamModel.ApplyGains | src/pitch_control/pitch_control.py:190-193 | each player's scratch grows by the solver's credit for its jersey, and nothing else changes |
| DataUtils.FirstMaxPresent | src/data/utils.py:69 | `idxmax` over present values: none iff all are missing; otherwise the chosen entry is at least every present entry and strictly above the present entries before it |
| DataUtils.HalfOf | src/data/utils.py:72 | `left` iff x < 0, `right` iff x > 0, '' iff x == 0 |
| DataUtils.FindGoalkeeper | src/data/utils.py:68-72 | fails iff the team has no present x column; otherwise the column is an `_x`/`_X` column of the team with the largest absolute x, the first such in column order; the id is its second '_' field; the half follows the sign of its x |
| DataUtils.FindGoalkeepers | src/data/utils.py:65-84 | home's result and then away's, the first failure winning |
| DataUtils.GoalkeeperColumnUnique | src/data/utils.py:69 | the goalkeeper column is the unique candidate that is maximal and strictly above all earlier candidates |
| DataUtils.MatchTeamColumn | src/data/utils.py:31-32 | a match is `team + "_" + digits + "_x"` at the start of the column, returning the digits |
| DataUtils.MatchTeamColumnComplete | src/data/utils.py:31-32 | every column of the form `team_<digits>_x...` matches with exactly those digits |
| DataUtils.MatchJersey | src/data/utils.py:24-25 | a match is a `home` or `away` column `team_<digits>_x...`, returning (digits, team) |
| DataUtils.MatchJerseyOfTag | src/data/utils.py:24-25 | a player's own x column always matches with its jersey and team |
| DataUtils.GetJerseyTeam | src/data/utils.py:22-26 | the k-th pair is the match of the k-th column that `(home|away)_<digits>_x` matches, so there is one pair per matching column in column order; every jersey is digits and every team is home or away |
| DataUtils.GetJerseyTeamAppend | src/data/utils.py:24-25 | the pairs of two column lists in turn are the pairs of each list, concatenated |
| DataUtils.GetIdsInTeam | src/data/utils.py:29-33 | the k-th jersey is the digit run captured from the k-th column matching `team_<digits>_x`, one per matching column in column order |
| DataUtils.HomeAwayExclusive | src/data/utils.py:24-25 | no column matches both the home and the away pattern |
| DataUtils.IdsInTeamAgree | src/data/utils.py:22-33 | the team's jerseys equal the jerseys of `get_jersey_team` whose team is that team, in order |
| DataUtils.RemovePlayer | src/data/utils.py:59-62 | an order-preserving subsequence with no player of that jersey, every other player kept, and the length drops by the number removed |
| DataUtils.RemovePlayerIdempotent | src/data/utils.py:60 | removing the same jersey twice is removing it once |
| DataUtils.Stride | src/data/utils.py:88 | the number of rows taken is ceil(len / n) |
| DataUtils.StrideAt | src/data/utils.py:88 | the i-th row taken is row i * n |
| DataUtils.SelectEveryNRows | src/data/utils.py:87-89 | fails iff n == 0; for n > 0 rows 0, n, 2n, ... (ceil(len/n) of them); for n < 0 the same stride counted from the last row |
| DataUtils.SelectEveryRow | src/data/utils.py:88 | a step of 1 keeps every row and a step of -1 reverses them |
| DataUtils.StaminaSuffix | src/data/utils.py:175-180 | the stamina part is empty iff neither factor is truthy |
| DataUtils.PositionsSuffix | src/data/utils.py:181-183 | the positions part is empty iff there are no positions |
| DataUtils.CreateOutputFilename | src/data/utils.py:169-186 | the name starts with `filename`; when the flag is set `_include_velocities` comes right after it; the stamina part and then the positions part always follow, whether the flag is set or not |
| DataUtils.NoOptionsKeepsName | src/data/utils.py:169-186 | with no flag, no truthy factor and no positions the name is `filename` |
| DataUtils.MissingFactorReadsAsOne | src/data/utils.py:175-178 | when only one stamina factor is given the other is written as 1.0 |
| DataUtils.ZeroFactorIsMissing | src/data/utils.py:175-180 | a zero stamina factor is written as if it were absent |
| DataUtils.PositionAppendsLast | src/data/utils.py:181-186 | one more position appends `_<pos>` at the end |
| Strings.Split | src/data/utils.py:70 | `split('_')`: no field holds the separator and joining the fields gives the string back |
| Strings.SplitJoin | src/data/utils.py:70 | splitting undoes joining when no part holds the separator |
| FieldGrid.CalculateCells | src/pitch_control/pitch_control.py:76-85 | ZeroDivisionError iff length, nx or the derived row count is zero; ny = int(nx * width / length); thresholds nx/3, 2nx/3, nx as reals; both centre lists are symmetric about the half-way line |
| FieldGrid.RowCountIsFloor | src/pitch_control/pitch_control.py:77 | for a positive pitch and column count the row count is the floor of nx * width / length |
| FieldGrid.CentresEvenlySpaced | src/pitch_control/pitch_control.py:78-79 | consecutive cell centres are one cell width apart |
| FieldGrid.CentresSymmetric | src/pitch_control/pitch_control.py:78-81 | centres of cells that exactly fill a side are symmetric about zero |
| FieldGrid.FlagZone | src/pitch_control/pitch_control.py:281-292 | first below nx/3, second below 2nx/3, third below nx, out of the field otherwise |
| FieldGrid.ZonesCoverGrid | src/pitch_control/pitch_control.py:281-292 | every column of the grid gets a zone |
| FieldGrid.ZoneMonotone | src/pitch_control/pitch_control.py:283-288 | the zone never goes backwards as the column grows |
| FieldGrid.BeyondGridIsOutOfField | src/pitch_control/pitch_control.py:289-291 | a column at or beyond nx is out of the field |
| FieldGrid.ThirtyColumns | src/pitch_control/pitch_control.py:83-85 | with 30 columns the zones are [0,10), [10,20), [20,30) |
| FieldGrid.ZonesMirror | src/pitch_control/pitch_control.py:83-84 | when nx is a multiple of 3, column j is in the first third iff its mirror column is in the third |
| FieldGrid.FiftyColumnsAsymmetric | src/pitch_control/pitch_control.py:83-85 | with 50 columns column 16 is first but its mirror 33 is second; 17 is second and 34 third |
| Offside.FirstGoalkeeper | src/pitch_control/pitch_control.py:340 | the first defender flagged goalkeeper, or none iff no one is flagged |
| Seqs.SecondLargest | src/pitch_control/pitch_control.py:345-346 | `sorted(..., reverse=True)[1]`: a value of the list with at most one entry above it and at least two at or above it |
| Seqs.SecondLargestMatchesTopTwo | src/pitch_control/pitch_control.py:345-346 | the second largest agrees with an independent one-pass top-two scan |
| Offside.LineBase | src/pitch_control/pitch_control.py:349 | `max(second, ball, 0.0)` is at least each present argument and equal to one of them; a missing ball never wins |
| Offside.OffsideLine | src/pitch_control/pitch_control.py:337-349 | MissingGoalKeeper iff no defender has gk_id; IndexError iff it does but no defender is flagged or there are fewer than two; the half is the sign of the first flagged goalkeeper's x; the line is max(second oriented defender, oriented ball, 0) + tol, hence at least tol |
| Offside.CheckOffsides | src/pitch_control/pitch_control.py:314-358 | fails exactly as the line does; otherwise an order-preserving subsequence of the attackers holding exactly those with oriented x at most the line |
| Offside.NearSideNeverOffside | src/pitch_control/pitch_control.py:349-357 | an attacker whose oriented x is at most tol is never removed |
| Offside.ConsistentFlagsFindGoalkeeper | src/pitch_control/pitch_control.py:337-346 | when only the gk_id jersey is flagged, a present goalkeeper is also found by flag, so only too few defenders can fail |
| Offside.WorkedExampleLine | src/pitch_control/pitch_control.py:337-349 | goalkeeper -50, defender -30, ball -40, tol 0.2 give orientation -1 and line 40.2 |
| Offside.WorkedExampleKeepsBoth | src/pitch_control/pitch_control.py:356-357 | in that example the attackers at -29 and -28 are both kept |
| PitchControl.ClosestPlayer | src/pitch_control/pitch_control.py:361-366 | ValueError iff the list is empty; otherwise the time is at most every player's and the index is the first player with that time |
| PitchControl.ClosestIsFirstMinimum | src/pitch_control/pitch_control.py:363-366 | the closest player is the unique first minimum |
| PitchControl.BallTime | src/pitch_control/pitch_control.py:180-181 | the ball's travel time is non-negative, and times the average speed it is the distance |
| PitchControl.DominanceExclusive | src/pitch_control/pitch_control.py:189-194 | with positive cutoffs the two fast-path rules never both hold |
| PitchControl.Prune | src/pitch_control/pitch_control.py:199-204 | an order-preserving subsequence holding exactly the players within the cutoff of the side's minimum time |
| PitchControl.PruneKeepsClosest | src/pitch_control/pitch_control.py:199-204 | with a positive cutoff the closest player survives pruning, so a pruned side is never empty |
| PitchControl.Decided | src/pitch_control/pitch_control.py:189-194 | a fast-path outcome gives one side 1 and the other 0, crediting 1 to a single player of the winning side |
| PitchControl.SolveCell | src/pitch_control/pitch_control.py:176-242 | a missing ball coordinate fails before anything else; an empty side is a ValueError; if the defender rule holds the result is (0, 1) with the closest defender credited 1; only otherwise the attacker rule gives (1, 0) with the closest attacker credited; else the integration over the pruned sides decides; a solved cell has non-negative controls and credits only players of the side it was given, never negatively |
| PitchControl.PrunedIds | src/pitch_control/pitch_control.py:199-204 | the players the integration sees after pruning all belong to the side that was pruned |
| PitchControl.SolveCellRunners | src/pitch_control/pitch_control.py:176-242 | the cell solver reads a player only through its jersey, time to intercept and control rates: two sides that agree on those give the same outcome |
| PitchControl.NoHeadStartNoFastPath | src/pitch_control/pitch_control.py:189-204 | when both closest players arrive together no fast path applies and the integration decides |
| PitchControl.Checksum | src/pitch_control/pitch_control.py:150-152 | fails iff 1 - total / (ny * nx) exceeds the tolerance |
| PitchControl.PassedChecksum | src/pitch_control/pitch_control.py:150-152 | a running total equal to the sum of two surfaces passes the guard iff the surfaces do |
| PitchControl.CoveredGridPasses | src/pitch_control/pitch_control.py:150-152 | a grid whose every cell sums to at least 1 passes |
| PitchControl.ThinGridFails | src/pitch_control/pitch_control.py:150-152 | a grid whose every cell sums to at most c < 1 - tol fails |
| PitchControl.SelectSides | src/pitch_control/pitch_control.py:109-110 | the sides are always one of each team; home attacks iff its possession is attacking |
| PitchControl.SidesFromBallOwner | src/pitch_control/pitch_control.py:106-110 | after the frame update the ball owner's team attacks; with neither owning, away takes the attacking side while labelled defending |
| PitchControl.Participants | src/pitch_control/pitch_control.py:113-119 | the roster players that are in frame and were kept at the start of the frame, in roster order |
| PitchControl.ParticipantsTimed | src/pitch_control/pitch_control.py:134-140 | after the time update every participant has a time, so the solver can compare them, and every participant is an in-frame, kept player of the roster |
| PitchControl.SolveTarget | src/pitch_control/pitch_control.py:134-143 | one target fails only with the ball, empty-side or integration errors; a solved target needs the ball present, has non-negative controls, and credits only in-frame players kept at the start of the frame, never negatively |
| PitchControl.SolveTargetFrozen | src/pitch_control/pitch_control.py:134-143 | a target's outcome does not depend on the running totals or the previous cell's values: the time update clears the per-cell value, so any later state of the same frame gives the same outcome |
| PitchControl.EvaluateCell | src/pitch_control/pitch_control.py:134-143 | one cell fails exactly when the target's solution fails, with its error; otherwise its outcome is that solution, and both sides keep their identity, every player's place and their consistency |
| PitchControl.EvaluateCellTotals | src/pitch_control/pitch_control.py:139-143 | each player's running total grows by exactly the solver's credit for it in that cell |
| PitchControl.CellTeamBuckets | src/pitch_control/team.py:84-111 | a cell's credit to a player lands in the bucket of the side's role and of the cell's third mirrored for the right half, and in no other; a side with an undetermined half keeps its buckets |
| PitchControl.CellTeamCredited | src/pitch_control/pitch_control.py:139-143 | one side's bookkeeping for a cell in column j grows each total by the player's credit and the bucket of the column's third, as seen from the side's half, by the same credit |
| PitchControl.EvaluateCellCredited | src/pitch_control/pitch_control.py:136-143 | a solved cell in column j, flagged with column j's third, credits both sides' totals and buckets as above |
| PitchControl.RowCreditStep | src/pitch_control/pitch_control.py:126-143 | a side credited with a row, then with one more cell, is credited with the longer row |
| PitchControl.GridCreditStep | src/pitch_control/pitch_control.py:125-143 | a side credited with a grid, then with one more row, is credited with the taller grid |
| PitchControl.RowZonesCover | src/pitch_control/pitch_control.py:126-143 | over a row of on-pitch cells the three thirds' credits add up to the row's credits |
| PitchControl.GridZonesCover | src/pitch_control/pitch_control.py:125-143 | over a grid of on-pitch cells the three thirds' credits add up to the grid's credits |
| PitchControl.CreditedBucketsCoverTotal | src/pitch_control/team.py:84-111 | for a side with a known half, over on-pitch cells, the six buckets together grow exactly as much as the running total |
| PitchControl.CellTotalsGrow | src/pitch_control/pitch_control.py:139-143 | a cell never lowers any player's running total |
| PitchControl.BystandersGainNothing | src/pitch_control/pitch_control.py:113-119 | with distinct jerseys, a player out of frame or removed by the offside filter gains nothing from a cell |
| PitchControl.PrepareFrame | src/pitch_control/pitch_control.py:104-119 | a missing ball column is a KeyError; the sides are chosen from the updated teams and the ball is the frame's; the defenders taking part are exactly the in-frame defenders; without the offside filter the attackers taking part are exactly the in-frame attackers; with it the frame fails iff `check_offsides` fails, with its error, and otherwise the attackers taking part are exactly those it keeps |
| PitchControl.PreparedSides | src/pitch_control/pitch_control.py:106-110 | after a prepared frame home attacks iff it owns the ball, and the attacking side is updated home exactly then |
| PitchControl.SolveGridCell | src/pitch_control/pitch_control.py:127-143 | a cell solved after earlier cells of the frame fails with the frame's cell error or gives the frame's cell outcome, keeps every player's place, and credits both sides (`CellCredited`): each running total grows by the cell's credit, and the bucket of the side's role and of column j's third, as seen from the side's half, by the same credit |
| PitchControl.SolveRow | src/pitch_control/pitch_control.py:127-143 | a row succeeds iff every cell of the row solves, and a failure is some cell's error; the row's outcomes are those cells' outcomes in column order; both sides keep every player's place and are credited with the row (`RowCredited`): each total grows by the player's credits over the row, each bucket by the credits from the row's cells in its third |
| PitchControl.SolveGrid | src/pitch_control/pitch_control.py:126-147 | the grid succeeds iff every cell solves, and a failure is some cell's error; its outcomes are the frame's cells row by row; the running total is the sum of both surfaces; both sides are credited with the grid (`GridCredited`): totals by the credits over the grid, buckets by the credits from the cells in their third |
| PitchControl.OutcomesShaped | src/pitch_control/pitch_control.py:121-123 | when every cell solves, both surfaces have one row per grid row of one entry per grid column, and a non-empty grid had the ball present |
| PitchControl.SolveFrame | src/pitch_control/pitch_control.py:126-152 | a prepared frame succeeds iff every cell solves and the surfaces pass the checksum; a failure carries the error of a failing cell, or is the checksum's once every cell has solved (`FrameFailure`); its outcomes are the frame's cells, and both sides are credited with the grid, totals and buckets |
| PitchControl.GeneratePitchControl | src/pitch_control/pitch_control.py:87-154 | a missing ball column is a KeyError; a failed set-up is the frame's error; a frame succeeds iff its set-up succeeds, every cell solves and the two surfaces pass the checksum; PPCFa and PPCFd are then the attacking and defending controls of the cells, correctly shaped; both teams keep identity, half, possession and players' places; home attacks iff it owns the ball; a failure after the set-up carries a failing cell's error or the checksum's; each team is credited with the grid from its side of the ball, totals and the buckets of each third as seen from its half; a non-empty grid needs the ball present |

## Left out

- The numerical integration of the control equations (src/pitch_control/pitch_control.py:205-242) is time stepping in floating point. Here it is the `Integrator` parameter of the solver. Its two failures, ProbabilityEstimationError and ConvergenceError, become the single `IntegrationFailed`. The integrator sees each pruned player as a `Runner`: jersey, time to intercept and the two rates, which is all the time stepping reads. It is constrained to what the source guarantees: non-negative controls, and credits only to the runners it was given, never negative (a negative rate raises).
- `PitchControl.SolveCell`: the source's controls are the sums of the players' credits (src/pitch_control/pitch_control.py:229-234). The model does not state that equality, because the integration is abstract.
- The exponential, the Euclidean norm, ln 10 and pi/sqrt(3) are parameters: `Exp`, `Norm`, `ln10` and `piOverRoot3`. Only positivity and exp(0) = 1 are assumed.
- Floating-point rounding is not modelled: all arithmetic is exact over `real`.
- src/pitch_control/velocities.py is numerical differentiation and smoothing through scipy and numpy, so it is not modelled.
- DataFrame, CSV and pickle plumbing is not modelled. This covers `prepare_df`, `standardize_units`, `initialite_players_contribution`, `save_keeper`, src/data/process_match.py, src/data/analysis.py, main.py and parser.py.
- The table builders `get_individual_contributions` and `get_vmax_df`, and the plotting under src/visualization, are not modelled.
- `PlayerModel.NewPlayer`: the stamina factor a player is built with is never used by the source, so the model drops it.
- `Offside.CheckOffsides`: the `verbose` printing is not modelled.
- `PlayerModel.UpdateTimeToIntercept` requires a non-zero top speed. The source's numpy division would give an infinity or NaN, and IEEE specials are not modelled.
- `PitchControl.ClosestPlayer` requires every player to have a time. The engine only passes in-frame players, and Python's `min` over NaNs depends on order.
- `PitchControl.GeneratePitchControl` assumes every player has a non-zero top speed, for the same reason.
- `PitchControl.GeneratePitchControl`: the source re-raises BallMissingError, ConvergenceError and ProbabilityEstimationError from the cell loop as AssertionError (src/pitch_control/pitch_control.py:145-147), and a failed checksum is an AssertionError too. Here each keeps its own kind, and `PitchControl.FrameFailure` says which cell or guard it came from. MissingGoalKeeper comes from `check_offsides` before the loop and is not wrapped, in the source or here.
- `PitchControl.GeneratePitchControl` returns both surfaces and both updated teams. The source returns PPCFa and mutates the teams in place.
- `PitchControl.GeneratePitchControl`: the cell solver's lists of players are rebuilt from each team's roster by jersey (in frame, and kept at the start of the frame). This matches the source's shared player objects because roster jerseys are distinct (`TeamModel.NewTeamHasOneGoalkeeper`).
- `PitchControl.GeneratePitchControl`: a frame without a `ball_owner` column is a KeyError in the source (src/pitch_control/team.py:65-66). Here the frame's ball owner is a plain string, so that error cannot arise.
- `PitchControl.GeneratePitchControl`: a frame table with no rows is an IndexError at `.iloc[0]` (src/pitch_control/pitch_control.py:104). Here a frame is one row, so that error cannot arise.
- `PitchControl.SolveCell` does not state the integration's outcome beyond passing it on, because the integration is abstract.
- `DataUtils.GetIdsInTeam`: the team name is spliced into a regular expression in the source. The model matches it literally, so a name holding regular-expression metacharacters is not modelled.
- `DataUtils.FindGoalkeeper`: pandas' `idxmax` over a team whose x values are all missing raises in recent pandas and returns NaN in older ones. The model reports EmptyInput.
- `DataUtils.CreateOutputFilename`: turning a number into text is the parameter `show`. Python's float formatting is not modelled.
- `PlayerModel.ProbabilityInterceptMonotone` holds for an exponential assumed increasing, because the abstract `Exp` does not carry monotonicity.
