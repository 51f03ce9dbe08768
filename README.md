# NBA xPTS: a verified model of the expected-points engine

NBA-xPTS is a Streamlit app. For every player in every game of a chosen date it shows
"expected points" (xPTS). Each field-goal attempt of the game is scored by its point value
times an estimate of how often the player makes that kind of shot. The estimate comes from the
player's season shot chart. Free-throw attempts are then counted at the player's season
free-throw percentage, and the sum is rounded to one decimal. The app also has a loader,
`load_nba_data`, that downloads season archives; its pure part builds the list of archive
names it needs.

This project models that engine in Dafny and proves properties of the model. It has five modules:

- `Shots` (`shots.dfy`)
  - The shot record `Shot`.
  - The row filter `Filter`, to which every data-frame mask `frame[mask]` reduces, and its lemmas.
  - The per-player selection `ForPlayer`.
- `Estimator` (`estimator.dfy`)
  - `get_fg` as `GetFg`.
  - Its three branches as lemmas.
  - The nesting of the exact and coarse buckets.
- `Aggregator` (`aggregator.dfy`)
  - `get_player_xpts`, first as the functions `ShotsXpts`, `PlayerXptsRaw` and `PlayerXpts`.
  - It is also the imperative methods `SumShotXpts` and `GetPlayerXpts`. These mirror the
    accumulator loop and are proved equal to the functions.
  - Bounds, monotonicity and other-players-ignored lemmas.
- `Game` (`game.dfy`)
  - The per-game render loop that builds `xPTS_list`, as the method `GameXpts`.
  - The loop is proved against the function `RowsXpts`, the generic fold `Rows` applied to
    the game's per-row figure. The fold's lemmas hold for any per-row function.
  - The zero-attempt short-circuit.
  - The lemma saying when and how the list fails.
- `DatasetNames` (`names.dfy`)
  - The `need_data` tuple of `load_nba_data`: `str` of an integer, `"_".join`, data-major
    `itertools.product` order, the playoff infix and the WNBA prefix.

The season chart `df`, the game's box score `game_boxscore` and the free-throw table
`player_FTpct_df` are module-level globals in the program. In the model they are parameters:

- `seq<Shot>` for the shot charts;
- `seq<BoxLine>` for the box score;
- `map<int, real>` for the free-throw table.

A pandas `KeyError` becomes a `Fail` result. So does the `ValueError` of `int()` on a shot-type
character that is not a digit. Ratios of counts are exact, so they are `real`.

### The sparse-branch numerator

When an exact bucket has at most five attempts, `get_fg` falls back to the basic zone
(NBAxPTS.py:154). The numerator mask combines two masks with `&`:

- a mask over the whole season frame (same basic zone);
- `shots_df['SHOT_MADE_FLAG']==1`, a mask over the exact bucket only.

Pandas aligns the two on the row index, and rows missing from `shots_df` read False. So the
numerator is the number of made shots of the *exact* bucket, while the denominator counts the
attempts of the *coarse* bucket. A plain reading of the formula suggests the opposite: made
shots of the coarse bucket over its attempts.

The model follows the code:

- `Estimator.GetFg` uses the aligned mask row by row.
- `Estimator.NumeratorIsExactMakes` proves what it counts.
- `Estimator.GetFgCoarse` is the coarse-numerator reading, kept for comparison.
- `Estimator.GetFgAtMostCoarse` relates the two.
- `Estimator.GetFgSparseScenario` shows the two readings differ: 0.112 against 0.612.

## Model

| member | source | states |
|---|---|---|
| Shots.Filter | NBAxPTS.py:143 | a mask selection keeps at most the rows of the frame |
| Shots.FilterConcat | NBAxPTS.py:143 | selecting from a concatenation is concatenating the selections |
| Shots.FilterFilter | NBAxPTS.py:147 | masking a masked frame is masking with the conjunction of the masks |
| Shots.FilterWeaker | NBAxPTS.py:143 | a mask implied by another selects at least as many rows |
| Shots.ForPlayer | NBAxPTS.py:162-163 | the selection `frame[frame['PLAYER_ID']==pid]`: at most the frame's rows |
| Shots.FilterMembers | NBAxPTS.py:143 | a row is selected exactly when it is in the frame and passes the mask |
| Shots.ForPlayerMembers | NBAxPTS.py:162-163 | a player's selection holds exactly that player's rows of the frame |
| Shots.ForPlayerSkipsOthers | NBAxPTS.py:162-163 | a row of another player does not change the selection `frame[frame['PLAYER_ID']==pid]` |
| Estimator.GetFg | NBAxPTS.py:140-156 | in every branch the estimate lies in [0, 0.95] |
| Estimator.AlignedNumeratorMask | NBAxPTS.py:154 | the sparse-branch numerator mask, row by row: same basic zone, in the exact bucket and made (its count is given by NumeratorIsExactMakes) |
| Estimator.GetFgCoarse | NBAxPTS.py:143-156 | the reading with the coarse bucket's makes as sparse-branch numerator; also lies in [0, 0.95] |
| Estimator.BucketsNest | NBAxPTS.py:143-151 | makes of the exact bucket <= its attempts <= attempts of the basic-zone bucket |
| Estimator.NumeratorIsExactMakes | NBAxPTS.py:154 | under index alignment the sparse-branch numerator equals the number of made shots of the exact bucket |
| Estimator.GetFgByCounts | NBAxPTS.py:143-156 | the estimate is the three-branch formula of (exact attempts, exact makes, coarse attempts), and these obey makes <= attempts <= coarse; exactly 5 attempts falls in the sparse branch |
| Estimator.GetFgDense | NBAxPTS.py:146-149 | more than five exact attempts: min(m/n + min(n/150, 0.25), 0.95) |
| Estimator.GetFgSparseEmpty | NBAxPTS.py:151-152 | at most five exact attempts and no season shot in the basic zone: exactly 0 |
| Estimator.GetFgSparse | NBAxPTS.py:153-156 | at most five exact attempts and a non-empty basic zone: min(exact makes / coarse attempts + min(n/250, 0.25), 0.95) |
| Estimator.MadeNest | NBAxPTS.py:143-154 | the exact bucket's makes are among the basic zone's makes |
| Estimator.GetFgAtMostCoarse | NBAxPTS.py:154 | the estimate never exceeds the coarse-numerator reading, and equals it when the basic zone has no makes outside the exact bucket |
| Estimator.GetFgTenAttemptsSixMakes | NBAxPTS.py:146-149 | 10 attempts with 6 makes give 0.6 + 10/150 = 2/3, so a 2-point shot is worth 4/3 |
| Estimator.GetFgSparseScenario | NBAxPTS.py:154-156 | 3 attempts and 2 makes inside a zone of 20 attempts and 12 makes give 0.112 (the coarse reading gives 0.612) |
| Aggregator.PointValue | NBAxPTS.py:267 | the point value is the digit the label starts with (its numeric value, < 10); an empty label or a non-digit first character is a BadShotType error |
| Aggregator.PointValueOfLabels | NBAxPTS.py:267 | "2PT Field Goal" is worth 2, "3PT Field Goal" 3; "" and "Field Goal" fail |
| Aggregator.Round1 | NBAxPTS.py:174 | the rounded value is a multiple of 0.1 within 0.05 of the input |
| Aggregator.Round1Monotone | NBAxPTS.py:174 | rounding preserves order |
| Aggregator.ShotsXpts | NBAxPTS.py:165-168 | the shot sum succeeds exactly when every label has a point value, and is then non-negative |
| Aggregator.ShotValue | NBAxPTS.py:166-168 | one shot's term succeeds exactly when its label has a point value, and is non-negative |
| Aggregator.ShotsXptsStep | NBAxPTS.py:165-168 | one more loop iteration adds the next shot's term or fails with its error |
| Aggregator.ShotsXptsFailPersists | NBAxPTS.py:165-168 | once a prefix of the shots fails, the whole sum fails with the same error |
| Aggregator.Expected | NBAxPTS.py:168 | a count times a non-negative probability is non-negative, and zero tries give 0 |
| Aggregator.ExpectedMonotone | NBAxPTS.py:172 | more attempts at a non-negative rate never give fewer expected points |
| Aggregator.ShotsXptsAtMost | NBAxPTS.py:165-168 | with every shot worth at most 3, the sum succeeds and is at most 3 * 0.95 per shot |
| Aggregator.ShotValueAtMost | NBAxPTS.py:168 | a shot worth at most 3 adds at most 2.85 |
| Aggregator.LookupBox | NBAxPTS.py:172 | `game_boxscore.loc[pid]` finds a row exactly when some row has that id, and the row found has it |
| Aggregator.PlayerXptsRaw | NBAxPTS.py:158-172 | the unrounded figure succeeds exactly when every label of the player's game shots is valid, the player has a box-score row and a free-throw percentage |
| Aggregator.PlayerXpts | NBAxPTS.py:158-174 | the figure succeeds exactly when the raw figure does, and is within 0.05 of it |
| Aggregator.SumShotXpts | NBAxPTS.py:160-168 | the accumulator loop returns exactly the recursive shot sum, including its first error |
| Aggregator.GetPlayerXpts | NBAxPTS.py:158-174 | the method returns exactly `PlayerXpts`, errors included |
| Aggregator.PlayerXptsRawValue | NBAxPTS.py:162-172 | a successful raw figure is the sum over the player's game shots of point value times `get_fg` on the player's season shots, plus FTA times FT_PCT |
| Aggregator.PlayerXptsNothingAttempted | NBAxPTS.py:160-174 | no game shots and FTA = 0 give exactly 0, and a missing free-throw percentage is an error, not 0 |
| Aggregator.PlayerXptsRawBounds | NBAxPTS.py:165-172 | with FT_PCT >= 0 the raw figure is at least FTA * FT_PCT >= 0, and with shots worth at most 3 it is at most 3 * 0.95 per game shot plus FTA * FT_PCT |
| Aggregator.PlayerXptsMonotoneInFta | NBAxPTS.py:172-174 | with the shots fixed and FT_PCT >= 0, more free-throw attempts never lower the raw or the rounded figure |
| Aggregator.OtherPlayersIgnored | NBAxPTS.py:162-163 | a shot of another player, in the season chart or the game chart, does not change the figure |
| Aggregator.PlayerXptsErrors | NBAxPTS.py:165-172 | for a player in the box score, the only possible errors are a missing FT_PCT and a malformed label |
| Aggregator.PointValueErrors | NBAxPTS.py:168 | the shot sum can fail only with a BadShotType error |
| Game.PlayerEntry | NBAxPTS.py:275-278 | the figure of one box-score row: exactly 0 when FGA + FTA = 0, without consulting the estimator; otherwise `get_player_xpts` of that player |
| Game.RowsXpts | NBAxPTS.py:272-278 | the list succeeds exactly when every row's entry does |
| Game.Rows | NBAxPTS.py:272-278 | the list of the rows' figures, in order, fails exactly when some row's figure fails |
| Game.RowsValues | NBAxPTS.py:272-278 | a successful list has one figure per box-score row, and figure i is row i's figure |
| Game.RowsStep | NBAxPTS.py:273-278 | one more row appends its figure or fails with its error |
| Game.RowsFailPersists | NBAxPTS.py:273-278 | a failed prefix of rows fails the whole list with the same error |
| Game.GameXpts | NBAxPTS.py:272-278 | the loop building `xPTS_list` returns exactly `RowsXpts` over the box score |
| Game.NoAttemptsIsZero | NBAxPTS.py:275-276 | a row with FGA + FTA = 0 gives 0 whatever the charts and the free-throw table hold |
| Game.GameXptsFailure | NBAxPTS.py:272-278 | the list fails exactly when some row with attempts fails, and then only with a missing FT_PCT or a malformed label |
| Game.FirstFailure | NBAxPTS.py:273-278 | a failing list has a first failing row, with every row before it succeeding |
| Game.LastRowFails | NBAxPTS.py:273-278 | when every row but the last succeeds and the list fails, the last row's figure fails |
| DatasetNames.NatToStr | NBAxPTS.py:55 | `str(n)` is a non-empty string of decimal digits with no leading zero |
| DatasetNames.NatToStrRoundTrip | NBAxPTS.py:55 | reading the digits of `str(n)` back gives n |
| DatasetNames.IntToStr | NBAxPTS.py:55 | `str(i)` starts with '-' exactly when i is negative |
| DatasetNames.IntToStrInjective | NBAxPTS.py:55 | different seasons give different strings |
| DatasetNames.SeasonNames | NBAxPTS.py:55 | one name per season |
| DatasetNames.Join | NBAxPTS.py:55 | `sep.join(parts)`: the parts in order with `sep` between adjacent ones (its results are given by SeasonNameRegular and SeasonNamePlayoffs) |
| DatasetNames.SeasonName | NBAxPTS.py:55-58 | the name of one (data, season) pair: `"_".join([data] + middle + [str(season)])`, with middle empty for 'rg' and ['po'] for 'po' |
| DatasetNames.ProductNames | NBAxPTS.py:55-58 | the names of `product(data, seasons)` in data-major order (length by ProductNamesLength, contents by ProductNamesAt) |
| DatasetNames.NeededNames | NBAxPTS.py:54-65 | the `need_data` list for a season type and a league (length and contents by the NeededNames lemmas) |
| DatasetNames.SeasonNameRegular | NBAxPTS.py:55 | `"_".join([data, str(season)])` is data + "_" + str(season) |
| DatasetNames.SeasonNamePlayoffs | NBAxPTS.py:57-58 | `"_".join([data, 'po', str(season)])` is data + "_po_" + str(season) |
| DatasetNames.SeasonNamesAt | NBAxPTS.py:55 | the name of season j is at place j |
| DatasetNames.ProductNamesLength | NBAxPTS.py:55 | `product(data, seasons)` gives one name per pair |
| DatasetNames.PosIsProduct | NBAxPTS.py:55 | pair (i, j) of the product is at place i * len(seasons) + j |
| DatasetNames.ProductNamesAt | NBAxPTS.py:55-58 | the place of pair (i, j) holds the name of data[i] and seasons[j], in data-major order |
| DatasetNames.Prefixed | NBAxPTS.py:65 | the prefixed list has the same length and each name is the prefix plus the original name |
| DatasetNames.NeededNamesLength | NBAxPTS.py:54-65 | len(data) * len(seasons) names for 'rg' and 'po', twice that for any other season type |
| DatasetNames.NeededNamesRegular | NBAxPTS.py:54-65 | for 'rg', place i * len(seasons) + j holds data[i] + "_" + str(seasons[j]), prefixed with "wnba_" for the WNBA |
| DatasetNames.NeededNamesPlayoffs | NBAxPTS.py:56-65 | for 'po', that place holds data[i] + "_po_" + str(seasons[j]), prefixed likewise |
| DatasetNames.NeededNamesOtherSplit | NBAxPTS.py:59-65 | for any other season type, the list is the 'rg' list followed by the 'po' list, each prefixed for the WNBA |
| DatasetNames.NeededNamesRegularLength | NBAxPTS.py:54-55 | the 'rg' list has Pos(len(data), len(seasons), 0) names, one per pair |
| DatasetNames.PrefixedConcat | NBAxPTS.py:63-65 | prefixing the joined lists is joining the prefixed lists |
| DatasetNames.NeededNamesBothRegular | NBAxPTS.py:59-65 | for any other season type, place i * len(seasons) + j holds the regular-season name, prefixed for the WNBA |
| DatasetNames.NeededNamesBothPlayoffs | NBAxPTS.py:59-65 | for any other season type, the playoff name of the pair sits len(data) * len(seasons) places after its regular-season name |
| DatasetNames.Lower | NBAxPTS.py:64 | `str.lower()` keeps the length and lowers each ASCII letter in place |
| DatasetNames.IsWnba | NBAxPTS.py:64 | the league test `league.lower() == 'wnba'`, written character by character (equivalence by IsWnbaIsLowerWnba) |
| DatasetNames.IsWnbaIsLowerWnba | NBAxPTS.py:64 | the character-by-character league test holds exactly when `league.lower() == 'wnba'` |
| DatasetNames.IsWnbaIgnoresCase | NBAxPTS.py:64 | the league test ignores case: "wnba", "WNBA" and "WNba" match; "nba" and "wnba " do not |

## Left out

- I/O of `load_nba_data` (NBAxPTS.py:67-112) is left out: downloading, tar extraction, CSV reading and the existence check on disk. Only the name list is modelled.
- The argument coercions of `load_nba_data` (NBAxPTS.py:44-49) are left out: a single string or int is wrapped in a tuple. The model takes sequences.
- The `ValueError` for `in_memory` with several data types (NBAxPTS.py:51-52) is left out; it concerns the I/O options only.
- The `nba_api` calls, `get_box_scores`, `get_game_ids_from_date`, the Streamlit page, the team logos, the `LOC_X` sign flips and the team split and score formatting are left out. They are third-party I/O, presentation, or have no effect on xPTS.
- The loop over all games of a date and its `try` (NBAxPTS.py:241-243, handler at 339-341) are left out. An error in any game ends the whole page; the model computes one game at a time, and a failing game is a `Fail` result.
- Aggregator.Round1: Python's `round(x, 1)` works on binary floats and rounds ties to even, so `round(0.25, 1)` is 0.2. The model rounds half up on exact reals. Python's result meets only the non-strict bound x - 0.05 <= r; the strict lower bound x - 0.05 < r in Round1 and Aggregator.PlayerXpts holds for half-up rounding only. Float representation error is not modelled.
- `int()` of a non-ASCII Unicode digit and `str.lower()` beyond ASCII are not modelled. Labels and league names are taken as ASCII strings.
- The point value is taken from each of the player's own game shots. The program truncates every label to its first character (NBAxPTS.py:267) before any player is processed, so the program raises `IndexError` for an empty label in any row, even another player's. In the model, an empty label is an error only for its shooter.
- The box score's `dropna()` is left out and duplicate player ids are not modelled (NBAxPTS.py:247). The lookup takes the first row with the id. In pandas, a duplicate id makes `.loc` return a column rather than a number.
- FT_PCT is a real in the model, so a missing value (NaN) in the free-throw table is not modelled.
- Aggregator.PlayerXptsRawBounds and Aggregator.ShotsXptsAtMost: the upper bound 3 * 0.95 per shot assumes every label is worth at most 3, as "2PT" and "3PT" labels are. The bound is stated under that hypothesis and not for, say, a "9..." label.
