# Scouting dashboard scoring core, in Dafny

This project models the calculation pipeline of the scouting dashboard's
`perform_calculations` (db_calc.py). The pipeline takes the rows of the
`Data Entry` worksheet, one per team per match, and does five things:

1. It scores each row with three constant rubrics: auto climb, teleop fuel and endgame climb.
2. It sorts the rows by team and match.
3. It numbers each team's rows 1, 2, 3, ... (`Team Match Number`).
4. It builds the `Calcs` table: one row per team with the four average scores,
   the standard deviation of the total and a consistency index in [0, 1].
5. It builds the `Normalized Data` table, which rescales each average column so
   that the best team reads 100.

The modules follow those steps:

- `Rubric` holds the three tables and the cell lookups.
- `Scoring` holds the worksheet row and the scored row.
- `Sequencing` holds the sort and the per-team counter.
- `Stats` holds sum, mean, max and sample variance.
- `Aggregation` builds `Calcs`.
- `Normalization` builds `Normalized Data`.
- `Pipeline` runs the whole sequence.
- `Options` provides `Option`. `None` stands for a text cell that is blank or holds no
  value a rubric lists, or for a number that pandas holds as NaN or infinite.

All arithmetic is exact: scores are integers, and averages, deviations,
consistency and normalised values are reals.

Where the source's behaviour differs from what one might expect of such a
pipeline, the model follows the source:

- `std` is the sample standard deviation (n − 1 in the denominator). Totals 100
  and 0 have variance 5000, so their deviation is about 70.71, not 50
  (`SampleVarianceOfTwoMatches`).
- A team with a single match has no standard deviation (NaN). `clip` keeps NaN,
  so that team's consistency is NaN too. Here both are `None`; they are not 0 or 1.
- When every team averages 0 in a column, `100 / max` divides by zero, and the
  whole normalised column is NaN or infinite (`None`). It is not set to 0.
- The sort call asks for no stable sort, and pandas documents no order for two
  rows with the same team and match. So the model promises none: only that the
  result is ordered and is a permutation of its input.
- The consistency denominator is the largest total of any single row of any
  team, plus `eps` = 10⁻⁶.

The square root behind `std` is a parameter `sqrt: real -> real`. The lemmas
that depend on it require `IsSquareRoot(sqrt)`: it maps 0 to 0, and it maps a
positive x to the positive number whose square is x. Squared deviations are
computed over integers, scaled by n² (the sum of (n·x − total)²), and divided
back by n²·(n − 1). `SampleVarianceIsTextbook` proves that this equals the
textbook Σ(x − mean)² / (n − 1).

## Model

| member | source | states |
|---|---|---|
| `Rubric.Lookup` | db_calc.py:51-56 | `map(table).fillna(0)` on one cell: a cell holding a key of the rubric gets that key's points; a blank cell or a value the rubric does not list gets 0 |
| `Rubric.EndgamePoints` | db_calc.py:8-13 | endgame points are 30, 20, 10 exactly for `L3 Climb`, `L2 Climb`, `L1 Climb` and 0 for `Nothing`, any other value or a blank cell; never fails |
| `Rubric.AutoPoints` | db_calc.py:15-18 | auto points are 15 exactly when `Auto Climb` is `Yes`, otherwise 0 (for `No`, any other value or a blank cell) |
| `Rubric.TeleopPoints` | db_calc.py:20-22 | teleop points are the `Fuel` count times weight 1; a NaN count (`None`) counts 0, as `fillna(0)` makes it |
| `Scoring.ScoreRecord` | db_calc.py:51-57 | each phase score is its rubric value, the total is exactly auto + teleop + endgame, and the total lies between 0 and 45 + teleop |
| `Scoring.ScoreAll` | db_calc.py:51-57 | one scored row per worksheet row, in the same order, each scored by the rubric |
| `Sequencing.SortByTeamMatch` | db_calc.py:59 | the result is ordered by (team, match) ascending and is a permutation of the input; tie order is not promised |
| `Sequencing.Insert` | db_calc.py:59 | inserting into an ordered frame keeps it ordered and adds exactly that row |
| `Sequencing.CountTeam` | db_calc.py:61 | a team's row count never exceeds the frame's length |
| `Sequencing.CountTeamIsMultiplicity` | db_calc.py:61 | a team's row count is exactly the team's multiplicity in the frame's `Team Number` column |
| `Sequencing.TeamMatchNumber` | db_calc.py:61 | `cumcount() + 1` of row i lies between 1 and i + 1 |
| `Sequencing.CounterStep` | db_calc.py:61 | if the running per-team map agrees with the counts of the rows so far, then the row's number is its team's entry plus one, and bumping that entry keeps the map in agreement one row further |
| `Sequencing.NumberedPrefixStep` | db_calc.py:61 | appending the next row with its `cumcount() + 1` number extends a correctly numbered prefix by one row |
| `Sequencing.NumberWithinTeams` | db_calc.py:61 | the running per-team counter gives row i the number of earlier rows of its team plus one; for each team the numbers are exactly 1..n (n its row count), each once, strictly increasing along the frame |
| `Sequencing.NumberingIsContiguous` | db_calc.py:61 | the `cumcount() + 1` numbering is within 1..n, strictly increasing per team, and its set of values per team is exactly {1..n} |
| `Sequencing.OneTo` | db_calc.py:61 | k is in the set exactly when 1 <= k <= n |
| `Sequencing.TeamMatchNumberInRange` | db_calc.py:61 | every row's number lies between 1 and its team's row count |
| `Sequencing.TeamMatchNumberIncreasing` | db_calc.py:61 | two rows of one team are numbered in frame order, strictly |
| `Sequencing.TeamMatchNumberOnto` | db_calc.py:61 | every number from 1 to a team's row count is given to some row of that team |
| `Sequencing.CountTeamStep` | db_calc.py:61 | one more row adds one to that row's team count and leaves every other team's count unchanged |
| `Sequencing.SortedNumbersFollowMatches` | db_calc.py:59-61 | in the sorted frame a lower team match number never has a later match |
| `Stats.Mean` | db_calc.py:94-97 | a column's `mean` times its length is its sum |
| `Stats.Max` | db_calc.py:123-126 | a column's `max()` is one of its values and no value exceeds it |
| `Stats.SampleVariance` | db_calc.py:98 | the sample variance exists exactly for two or more values and is never negative |
| `Stats.SampleVarianceIsTextbook` | db_calc.py:98 | for two or more values, the integer-scaled variance equals the textbook Σ(x − mean)² / (n − 1) |
| `Stats.ScaledSquaredDeviationsAsReal` | db_calc.py:98 | the sum of (n·x − total)² is n² times the sum of (x − total/n)² |
| `Stats.VarianceZeroIffAllEqual` | db_calc.py:98 | the sample variance is 0 if and only if all values are equal |
| `Stats.MeanBounds` | db_calc.py:94-97 | a mean lies within any bounds of its column's values |
| `Stats.MeanNonNegative` | db_calc.py:94-97 | the mean of a column without negative values is not negative |
| `Stats.MeanOfThreeColumns` | db_calc.py:94-97 | the mean of a row-wise sum of three columns is the sum of their means |
| `Aggregation.InsertKey` | db_calc.py:92 | adding a key to an ascending distinct key list keeps it ascending and distinct and adds exactly that key |
| `Aggregation.GroupKeys` | db_calc.py:92 | the group keys are ascending, distinct, and exactly the teams present |
| `Aggregation.TeamRows` | db_calc.py:92 | a team's group holds exactly that team's rows, each with its multiplicity |
| `Aggregation.TeamRowsNonEmpty` | db_calc.py:92 | a team's group is non-empty exactly when the team is present |
| `Aggregation.Peak` | db_calc.py:110 | the peak is the total of some row, and no row's total exceeds it |
| `Aggregation.StandardDeviation` | db_calc.py:98 | `std` is defined exactly for two or more matches |
| `Aggregation.Clip` | db_calc.py:112-114 | the clipped value lies in [lo, hi], a value already inside is unchanged, and (for lo < hi) it equals lo exactly when the value is at most lo and hi exactly when it is at least hi |
| `Aggregation.DeviationRatio` | db_calc.py:113 | with a non-negative peak, stdev / (peak + eps) is 0 exactly for stdev 0, not negative for a non-negative stdev, and at least 1 exactly when stdev reaches peak + eps |
| `Aggregation.Consistency` | db_calc.py:109-114 | consistency is NaN exactly when the deviation is; otherwise in [0, 1]; deviation 0 gives exactly 1; with a non-negative peak it is 1 only for deviation 0 and 0 exactly when the deviation reaches peak + eps |
| `Aggregation.AggregateTeam` | db_calc.py:92-114 | a team's `Calcs` row carries that team; its `std` and its consistency exist exactly when the team has two or more rows, and the consistency then lies in [0, 1] |
| `Aggregation.Aggregate` | db_calc.py:92-114 | one row per group key, each the aggregate of that team's rows with the global peak; the table's teams are strictly ascending (no team twice) and are exactly the teams of the frame |
| `Aggregation.TableTeamsAreKeys` | db_calc.py:92 | a table whose rows carry the group keys in order holds exactly the frame's teams |
| `Aggregation.TotalAverageIsSumOfPhaseAverages` | db_calc.py:94-97 | a team's `Total Score AVG` equals `Auto Score AVG` + `Teleop Score AVG` + `Climb Score AVG` |
| `Aggregation.AveragesWithinRubric` | db_calc.py:94-97 | auto average in [0, 15], climb average in [0, 30], teleop and total averages not negative |
| `Aggregation.ScoreColumnsWithinRubric` | db_calc.py:51-57 | every scored row's auto score is in [0, 15], its endgame score in [0, 30], and its teleop and total scores are not negative |
| `Aggregation.ConsistencyOneIffSteady` | db_calc.py:109-114 | a team with two or more matches has consistency exactly 1 if and only if its total is the same in every match |
| `Aggregation.AggregateTableProperties` | db_calc.py:92-114 | every table row satisfies the sum-of-averages identity, the rubric bounds and the consistency bound |
| `Aggregation.SampleVarianceOfTwoMatches` | db_calc.py:98 | totals 100 and 0 have sample variance 5000 (deviation about 70.71, not 50) |
| `Normalization.Scale` | db_calc.py:123-126 | `v * (100 / max)` times the maximum is 100 times v |
| `Normalization.NormalizeColumn` | db_calc.py:123-126 | the normalised column has the same length; it is all NaN/infinite when the maximum is 0 and all finite otherwise |
| `Normalization.MaximumNormalizesTo100` | db_calc.py:123-126 | every team holding the column's non-zero maximum gets exactly 100 |
| `Normalization.NormalizedWithin0To100` | db_calc.py:123-126 | with a positive maximum and no negative value, every normalised value lies in [0, 100] |
| `Normalization.NormalizePreservesOrder` | db_calc.py:123-126 | normalising keeps the order of the teams' values |
| `Normalization.NonNegativeColumnInRange` | db_calc.py:123-126 | a column without negative values normalises to cells that are NaN/infinite or in [0, 100] |
| `Normalization.NormalizedTableInRange` | db_calc.py:121-126 | with non-negative averages every cell of the normalised table is NaN/infinite or in [0, 100] |
| `Normalization.Normalize` | db_calc.py:121-126 | the normalised table has the aggregate table's teams in the same order, each column normalised on its own |
| `Pipeline.PerformCalculations` | db_calc.py:51-126 | the scored table is a (team, match)-ordered permutation of the scored worksheet rows, one per row, numbered 1..n per team; `Calcs` is the aggregate of it, with exactly the worksheet's teams and every row within the rubric bounds; `Normalized Data` normalises `Calcs` and every cell is NaN/infinite or in [0, 100] |
| `Pipeline.SortedRowsScored` | db_calc.py:59 | the sorted frame has as many rows as the worksheet, every row scored by the rubric, and the worksheet's teams |
| `Pipeline.SameTeams` | db_calc.py:59 | reordering the scored rows keeps exactly the worksheet's set of teams |

## Left out

- Google Sheets authentication and fetching, and `print(df.columns)` (db_calc.py:30-48): network and console I/O. The worksheet rows are the pipeline's input.
- `write_to_db` and the three table writes (db_calc.py:24-27, 132-138): SQLite persistence. The three tables are the pipeline's outputs.
- `calc_df.round(2)` (db_calc.py:128): presentation rounding after all calculations. The model keeps exact values.
- `team_counts` (db_calc.py:66-70) and the first `calc_df` built at db_calc.py:63-64: both are computed and then discarded. No output table has these columns.
- The module-level call `perform_calculations()` (db_calc.py:142): an entry-point side effect.
- main.py: the Streamlit dashboard, which only reads the tables back.
- IEEE floating point: NaN and infinity are `None`, `eps` is the exact real 10⁻⁶, and no rounding error is modelled.
- Rubric.TeleopPoints: `Fuel` is a count, or `None` for a NaN count. A negative or non-numeric entry is not modelled.
- Rubric.TeleopPoints: an empty `Fuel` cell reaches the frame as an empty string from `get_all_records` (db_calc.py:43). `fillna(0)` leaves it as it is (db_calc.py:53), and the addition at db_calc.py:57 then raises. That failure is not modelled. A blank `Auto Climb` or `Endgame` cell is modelled: it maps to NaN and then to 0.
- Pipeline.PerformCalculations: an empty worksheet gives empty tables here. In pandas, a frame with no rows has no columns, so line 51 raises a KeyError.
- Pipeline.PerformCalculations: the square root is a parameter and is not computed. The lemmas that need its values require `IsSquareRoot`.
- Scoring.ScoreAll: a missing column (as opposed to a blank cell) raises in pandas. It is not modelled, because every row here has all the columns.
