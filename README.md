# zamboni, modelled in Dafny

zamboni predicts the outcome of NHL games. It downloads games into a SQL database and builds
per-game features from SQL views. It walks forward through the season, fitting a scaler and
predicting each day's games, and it scores its predictions. This project models the parts of
that pipeline that make decisions, and proves what they compute:

- **Domain records** (`sport.dfy`, `nhl_models.dfy`): a game read from a CSV line, its
  `completed`, `outcome` and `in_ot` attributes, the `TeamService` lookup maps with their
  sentinel defaults, and the pydantic validators of the NHL API responses, written as functions
  that return the list of rejections.
- **Utilities** (`utils.dfy`, `pd_helpers.dfy`): zero padding, the date string, CSV splitting,
  prediction confidence, and the row filters of `pd_helpers`.
- **SQL views** (`view_statements.dfy`, `sql_nulls.dfy`): `games_per_team`,
  `games_with_previous`, `games_prev_same_opp` and `games_history` as functions over rows. SQL
  NULL is `None`. `SUM`, `COUNT` and `MAX` are the NULL-aware aggregates, and the joins follow
  the view text join by join. Two files state the views' meaning against a direct reference
  definition. `view_history.dfy` covers a team's record in its earlier games of the season.
  `view_prev_same_opp.dfy` covers the latest earlier meeting of the two teams.
- **Feature selects** (`statements.dfy`): `games_select`, with its left joins onto the history
  and prior-meeting views and its date window, and `games_with_predictions_select`.
- **Data selection** (`data_management.dfy`): `ColumnTracker`'s column lists, the `ZamboniData`
  rows with unknown teams dropped, the date selection, and the re-adding of unscaled columns.
  `ZamboniData` is a class whose methods update its fields.
- **Training loop and accuracy** (`training.dfy`): `IncrementalStrategy.run` is a class method
  whose loop is proved against a day-by-day specification. The scaler and the trainer are
  oracles; the run records a trace of their calls (`Fit`, `Train`, `Eval`). Given a handler
  whose `query_games` returns a data frame, the run as written fails on the missing
  dataloader. A separate `RunAsWritten` models that failure, and `Run` models the run as
  intended. Also modelled:
  `split_by_percentage`, `prediction_date_bounds` and `ResultsAnalyzer.get_accuracy`.
- **Store** (`sql_helpers.dfy`, `sql_handler.dfy`): the dialect-aware `upsert` in both its
  paths, over a class holding a table's rows. `SQLHandler`'s table logic is a class `Store`
  over the games, seasons and teams tables and the team-id cache. That logic covers seasons,
  teams, game insertion with its points rule, game update, the insert/update/skip decision of
  `load_games_to_db`, and prediction recording. It also covers the predicter register and the
  last-training table.

Dates are day numbers: `int` in the database tables and `real` in the data frames. The date
string parser, which `sql_handler.py` imports, is a parameter `dayOf`. The ISO 8601 parser the
validators use is a parameter `isIso`. The current day is a parameter `today`. Floating-point
values are `real`.

## Model

| member | source | states |
|---|---|---|
| Utils.ZeroPadLongEnough | src/zamboni/utils.py:4-6 | a string already at least `length` long is returned unchanged |
| Utils.ZeroPadShape | src/zamboni/utils.py:4-6 | with a one-character padder the result is max(length, len) long, ends with the input, and is padder before it |
| Utils.ZeroPadDateRoundTrip | src/zamboni/utils.py:9-13 | a 4-digit year, 2-digit month and 2-digit day give ten characters, dashes at 4 and 7, each part reading back as its number |
| Utils.NatToStringLengthIff | src/zamboni/utils.py:4-13 | `str(n)` has at most k characters exactly when n < 10^k, which decides whether padding happens |
| Utils.SplitCsvLineFields | src/zamboni/utils.py:50-56 | commas + 1 fields, each the stripped piece between commas, none holding a comma or outer whitespace |
| Utils.SplitJoin | src/zamboni/utils.py:50-56 | joining the split pieces with the separator gives back the line |
| Utils.JoinSplit | src/zamboni/utils.py:50-56 | splitting a join of separator-free pieces gives back the pieces |
| Utils.StripProperties | src/zamboni/utils.py:55 | `strip()` keeps a middle slice, removes only whitespace and leaves none at either end |
| Utils.ConfidenceFromPrediction | src/zamboni/utils.py:59-67 | the result is p or 1 - p, whichever is larger |
| Utils.ConfidenceBounds | src/zamboni/utils.py:59-67 | for a probability the confidence lies in [0.5, 1] |
| Utils.ConfidenceSymmetric | src/zamboni/utils.py:63-67 | p and 1 - p have the same confidence |
| PdHelpers.FilterByGameType | src/zamboni/pd_helpers.py:4-6 | an ordered subsequence holding exactly the rows of that game type, each as many times as in the input |
| PdHelpers.FilterBySeason | src/zamboni/pd_helpers.py:8-10 | an ordered subsequence holding exactly the rows of that season, each as many times as in the input |
| PdHelpers.FilterByTeam | src/zamboni/pd_helpers.py:12-14 | an ordered subsequence holding exactly the rows where the team is home or away, each as many times as in the input |
| PdHelpers.WonByTeam | src/zamboni/pd_helpers.py:16-24 | an ordered subsequence holding exactly the rows the team won by goals, at home or away, each as many times as in the input |
| PdHelpers.WinsGameMatchesWonByTeam | src/zamboni/pd_helpers.py:26-37 | `_wins_game` holds for a row exactly when `won_by_team` keeps it |
| PdHelpers.TiesNeverWon | src/zamboni/pd_helpers.py:16-24 | a tied game is never kept for either team |
| PdHelpers.WonIsSubsequenceOfTeam | src/zamboni/pd_helpers.py:12-24 | the games won are an ordered selection of the games played |
| PdHelpers.DecidedGameHasOneWinner | src/zamboni/pd_helpers.py:26-37 | in a decided game between two teams exactly one of them wins |
| PdHelpers.SeasonThenTeam | src/zamboni/pd_helpers.py:8-14 | season then team selects exactly that team's rows in that season, each as many times as in the input |
| Sport.FromCsvLine | src/zamboni/sport.py:69-82 | fails exactly for a line of fewer than 14 fields |
| Sport.FromCsvLineRoundTrip | src/zamboni/sport.py:69-82 | a written 14-field line reads back with every field in its positional attribute |
| Sport.FromCsvLineShort | src/zamboni/sport.py:69-82 | a line with fewer than 13 commas raises IndexError |
| Sport.SameGameEquivalence | src/zamboni/sport.py:63-66 | `__eq__` is reflexive, symmetric and transitive |
| Sport.SameGameIgnoresResults | src/zamboni/sport.py:63-66 | only the two abbreviations and the date decide equality; scores, types and ids do not |
| Sport.Completed | src/zamboni/sport.py:90-92 | definition: 1 exactly when both goal fields are non-empty, 0 otherwise |
| Sport.OutcomeAsWritten | src/zamboni/sport.py:95-105 | -1, 0 or 1, deciding by string order of the goal fields of a completed game |
| Sport.OutcomeAsWrittenTie | src/zamboni/sport.py:99-105 | a completed game is -1 exactly when the goal strings are equal |
| Sport.OutcomeAsWrittenTenNine | src/zamboni/sport.py:99-104 | a 10-9 home win is recorded as an away win |
| Sport.Outcome | src/zamboni/sport.py:95-105 | 1 for a home win and 0 for an away win by number of goals, -1 for an unfinished or tied game |
| Sport.LexLessIsNumericLess | src/zamboni/sport.py:99-104 | for digit strings of equal length, string order is number order |
| Sport.OutcomeAgreesOnEqualWidth | src/zamboni/sport.py:95-105 | when both scores have the same number of digits, the outcome as written is the intended one |
| Sport.InOTAsWritten | src/zamboni/sport.py:108-115 | definition (its property is in Sport.InOTAsWrittenAlwaysOvertime): -1 for an unfinished game, 0 when the game type field is 'REG', 1 otherwise |
| Sport.InOTAsWrittenAlwaysOvertime | src/zamboni/sport.py:112-115 | a numeric game type is never 'REG', so every completed game counts as overtime |
| Sport.InOTAsWrittenRegulationGame | src/zamboni/sport.py:112-115 | a game decided in regulation is reported as overtime as written and as regulation as intended |
| Sport.InOT | src/zamboni/sport.py:108-115 | definition (its property is in Sport.InOTAsWrittenRegulationGame): -1 for an unfinished game, 0 when the last period type is 'REG', 1 otherwise |
| Sport.BuildIsInverse | src/zamboni/sport.py:15-23 | from empty maps over rows with distinct ids and abbreviations, each built map is the other's inverse |
| Sport.BuildDomain | src/zamboni/sport.py:15-23 | the keys of the two maps are exactly the abbreviations and ids read |
| Sport.TeamService.constructor | src/zamboni/sport.py:10-13 | both maps start empty |
| Sport.TeamService.BuildAbbrevIdDicts | src/zamboni/sport.py:15-23 | both maps hold the table rows written over the old maps in row order |
| Sport.TeamService.IdFromAbbrev | src/zamboni/sport.py:25-29 | the cached id or -1; the defaultdict then stores the answer; the other map is unchanged |
| Sport.TeamService.AbbrevFromId | src/zamboni/sport.py:31-37 | rebuilds both maps only when the abbreviation map is empty, then answers the id's abbreviation or 'N/A' and stores it |
| NhlModels.ValidateTeamDetails | src/zamboni/nhl_models.py:32-38 | accepted exactly when the score is left out or a non-negative number; an explicit null raises the TypeError of `None < 0` |
| NhlModels.ValidateSeason | src/zamboni/nhl_models.py:137-144 | accepted exactly when the decimal season has 8 characters |
| NhlModels.SeasonAcceptedRange | src/zamboni/nhl_models.py:137-144 | an 8-digit season, or a minus sign and 7 digits, is accepted |
| NhlModels.SeasonExamples | src/zamboni/nhl_models.py:137-144 | 20242025 is accepted and 2025 rejected |
| NhlModels.ValidateStartTime | src/zamboni/nhl_models.py:127-135 | accepted exactly when the time parses as ISO 8601 once 'Z' is read as +00:00 |
| NhlModels.ValidateGameState | src/zamboni/nhl_models.py:155-162 | definition (its property is in NhlModels.GameAccepted): accepted exactly for OFF, FINAL, FUT, LIVE, CRIT and PRE |
| NhlModels.ValidateFinishedState | src/zamboni/nhl_models.py:164-175 | a FINAL or OFF game is accepted exactly when it has an outcome and two numeric scores |
| NhlModels.GameAccepted | src/zamboni/nhl_models.py:127-175 | a game is accepted exactly when every field validator passes (each score left out or a non-negative number) and the finished-state check passes |
| NhlModels.NullScoreRaises | src/zamboni/nhl_models.py:32-38 | an explicit null score ends a game's validation with the TypeError alone, whatever the other fields hold |
| NhlModels.FinishedGameNeedsScores | src/zamboni/nhl_models.py:164-175 | a finished game with a score left out is rejected, by the model validator alone when its other fields are valid |
| NhlModels.UnfinishedGameMayOmitResult | src/zamboni/nhl_models.py:164-175 | a scheduled or live game may leave out its outcome and scores |
| NhlModels.GamesAccepted | src/zamboni/nhl_models.py:178-194 | a list of games is accepted exactly when each game is |
| NhlModels.GameDayAccepted | src/zamboni/nhl_models.py:186-194 | a day is accepted exactly when its date parses and its games are accepted |
| NhlModels.PlayerResponseAccepted | src/zamboni/nhl_models.py:218-233 | a missing or 0..99 number and a missing or known position (C, L, R, D, G, U) |
| NhlModels.RosterPlayerAccepted | src/zamboni/nhl_models.py:419-434 | a 0..99 number and one of C, L, R, D, G |
| NhlModels.PositionUnknownOnlyForPlayers | src/zamboni/nhl_models.py:226-233 | "U" passes for a player lookup and is rejected for a roster entry |
| NhlModels.StandingsEntryAccepted | src/zamboni/nhl_models.py:351-394 | accepted exactly when the date parses and all seventeen counts are non-negative |
| NhlModels.NegativeWinsReported | src/zamboni/nhl_models.py:361-367 | a negative count is reported under its own field name |
| SqlNulls.SumOptNone | src/zamboni/sql/view_statements.py:94 | `SUM` is NULL exactly when every value is NULL |
| SqlNulls.IfNullSum | src/zamboni/sql/view_statements.py:94 | `IFNULL(SUM(col), 0)` is the sum with NULL read as 0 |
| SqlNulls.IfNullRate | src/zamboni/sql/view_statements.py:96-98 | `IFNULL(CAST(SUM(col) AS REAL) / COUNT(*), 0)` is the NULL-as-0 sum over the row count |
| SqlNulls.CountSomeBound | src/zamboni/sql/view_statements.py:95-96 | `COUNT(col)` is at most `COUNT(*)` and equal to it when no value is NULL |
| SqlNulls.MaxOptIsMax | src/zamboni/sql/view_statements.py:75-76 | `MAX` is NULL only when every value is, and otherwise is a value that none exceeds |
| ViewStatements.CaseOutcome | src/zamboni/sql/view_statements.py:11 | definition (its property is in ViewStatements.WonRows): 1 exactly when the outcome is the given value; NULL matches no WHEN |
| ViewStatements.OvertimeFlag | src/zamboni/sql/view_statements.py:12 | definition (its property is in ViewStatements.InOTRows): 1 exactly for a known last period other than 'REG'; NULL gives 0 |
| ViewStatements.GamesPerTeamExpands | src/zamboni/sql/view_statements.py:5-30 | each game gives exactly two rows, the home row at its place and the away row after all home rows |
| ViewStatements.PerTeamMirror | src/zamboni/sql/view_statements.py:5-30 | the away row swaps team, goals and points with the home row and shares its overtime flag |
| ViewStatements.WonRows | src/zamboni/sql/view_statements.py:11-23 | home wins on outcome 1, away on 0; exactly one row wins for those, none for NULL or other values |
| ViewStatements.InOTRows | src/zamboni/sql/view_statements.py:12-24 | inOT is 1 exactly for a known last period other than 'REG', and is shared by both rows |
| ViewStatements.CreateViewStatement | src/zamboni/sql/view_statements.py:105-120 | fails exactly for a view name that has no SQL text |
| ViewStatements.CreateViewStatementDialects | src/zamboni/sql/view_statements.py:105-120 | PostgreSQL gets CREATE OR REPLACE and COALESCE, other dialects CREATE VIEW IF NOT EXISTS and IFNULL |
| ViewStatements.RenderWithoutSlot | src/zamboni/sql/view_statements.py:112-119 | a text without the placeholder is the same for every dialect |
| ViewStatements.RenderFillsSlot | src/zamboni/sql/view_statements.py:113-118 | a text with the placeholder contains the null function |
| ViewHistory.PerTeamOrigin | src/zamboni/sql/view_statements.py:5-30 | every per-team row is a game seen from its home or away team |
| ViewHistory.GamesHistoryPresent | src/zamboni/sql/view_statements.py:51-101 | a (game, team) history row exists exactly when the game is stored, the team is listed and plays in it |
| ViewHistory.PerTeamUnique | src/zamboni/sql/view_statements.py:5-30 | under the primary keys, a game and one of its teams select exactly one per-team row |
| ViewHistory.GroupIsPrevRows | src/zamboni/sql/view_statements.py:51-63 | the (game, team) group of `games_with_previous` is the left joins of its one per-team row |
| ViewHistory.PriorRowsAreMapped | src/zamboni/sql/view_statements.py:56-63 | each earlier same-season game of the team meets exactly one of its per-team rows |
| ViewHistory.PriorAggregates | src/zamboni/sql/view_statements.py:94-99 | the aggregates over the joined rows are the wins, goals and points of the prior games |
| ViewHistory.AggregateIsReference | src/zamboni/sql/view_statements.py:88-102 | the aggregate row of a group equals the record computed from the team's prior games |
| ViewHistory.GamesHistoryIsReference | src/zamboni/sql/view_statements.py:33-102 | `games_history` for a game and team is the team's record in its strictly earlier games of that season, zero-filled when there are none |
| ViewPrevSameOpp.CandidateIffMeeting | src/zamboni/sql/view_statements.py:74-79 | a joined row passes `oppTeamID = prevOppTeamID` exactly when its earlier game is a meeting of the two teams |
| ViewPrevSameOpp.CandidateIsMeeting | src/zamboni/sql/view_statements.py:74-79 | every candidate row is a meeting seen from one of the two teams |
| ViewPrevSameOpp.MeetingIsCandidate | src/zamboni/sql/view_statements.py:74-79 | every meeting, seen from either listed team, is a candidate row |
| ViewPrevSameOpp.NoMeetingNoCandidate | src/zamboni/sql/view_statements.py:74-79 | without a meeting there is no candidate row |
| ViewPrevSameOpp.MaxDateIsLatest | src/zamboni/sql/view_statements.py:76 | `MAX(prevDatePlayed)` is the date of a latest meeting |
| ViewPrevSameOpp.MaxTeamIsTeam | src/zamboni/sql/view_statements.py:75 | `MAX(teamID)` is one of the game's two listed teams |
| ViewPrevSameOpp.LatestMeetingRow | src/zamboni/sql/view_statements.py:80-83 | the join back onto `games_with_previous` keeps the one row of the latest meeting |
| ViewPrevSameOpp.PrevSameOppIsLatestMeeting | src/zamboni/sql/view_statements.py:66-86 | no row without an earlier same-season meeting; otherwise one row with the latest meeting and its raw outcome and inOT |
| Statements.Latest | src/zamboni/sql/view_statements.py:74-85 | the latest of the meetings, which is one of them and is dated no earlier than any |
| Statements.FeatureColumns | src/zamboni/sql/statements.py:64-84 | game of season is prevNum + 1, prior-meeting values default to 0, hasPreviousMatchup is 0 exactly for a NULL prior outcome |
| Statements.GamesSelectWindow | src/zamboni/sql/statements.py:85-104 | every row is a game in the date window, and every game in the window appears: the left joins drop none |
| Statements.FeatureRowsIsReference | src/zamboni/sql/statements.py:85-96 | one row per game, built from its home history, away history and latest meeting |
| Statements.GamesSelectIsReference | src/zamboni/sql/statements.py:58-104 | the select is the reference feature of each stored game in the window, in table order |
| Statements.LatestMeetingUnique | src/zamboni/sql/view_statements.py:66-86 | two meetings on the latest date are the same game |
| Statements.GamesWithPredictionsSound | src/zamboni/sql/statements.py:107-137 | every row comes from a game with a prediction by an active predicter, both teams listed and a date in [start, end] |
| Statements.GamesWithPredictionsComplete | src/zamboni/sql/statements.py:107-137 | every such game and prediction appears |
| DataManagement.NoscaleColumns | src/zamboni/data_management.py:25-26 | definition (its property is in DataManagement.ScaleColumnsAreScaled): the target, then the categorical columns, then the notrain columns |
| DataManagement.InputsAreTrainColumns | src/zamboni/data_management.py:12-23 | the inputs keep the column order and are exactly the columns other than target and notrain |
| DataManagement.ScaleColumnsAreScaled | src/zamboni/data_management.py:28-30 | the scale columns keep input order and are exactly those not target, categorical or notrain |
| DataManagement.DropUnknownTeams | src/zamboni/data_management.py:68-69 | an ordered subsequence holding exactly the rows whose two team ids are not -1, each as many times as in the input |
| DataManagement.DropUnknownTeamsIdempotent | src/zamboni/data_management.py:68-69 | dropping the unknown-team rows again changes nothing |
| DataManagement.SelectRowsByDate | src/zamboni/data_management.py:100-104 | an ordered subsequence holding exactly the rows dated in [begin, end], each as many times as in the input |
| DataManagement.SelectedByDateRows | src/zamboni/data_management.py:94-107 | the selected set is the date mask then the constructor's team masks, keeping the columns |
| DataManagement.SelectByDateIdempotent | src/zamboni/data_management.py:100-107 | selecting the same range twice keeps the same rows |
| DataManagement.ReaddedColumns | src/zamboni/data_management.py:130-138 | the non-notrain columns are added with the data's values and the other scaled columns are untouched |
| DataManagement.DefaultReaddColumns | src/zamboni/data_management.py:130-138 | with the default roles, the outcome and both team columns come back and no notrain column changes |
| DataManagement.ZamboniData.constructor | src/zamboni/data_management.py:67-73 | the data is the unknown-team rows dropped; the tracker is the given one or the default |
| DataManagement.ZamboniData.SelectByDate | src/zamboni/data_management.py:94-107 | a new set holding the dated known-team rows, with the same column tracker |
| DataManagement.ZamboniData.SetScaled | src/zamboni/data_management.py:128 | the scaled frame holds the scale columns with the scaler's values |
| DataManagement.ZamboniData.ReaddNoscaleColumns | src/zamboni/data_management.py:130-138 | the scaled frame gains the non-notrain noscale columns from the data |
| Training.TruncToInt | src/zamboni/training.py:260 | `int(x)` truncates toward zero |
| Training.SliceBound | src/zamboni/training.py:262-265 | definition (its property is in Training.SplitByPercentagePrefix): a slice bound counts negatives from the end and is clamped to the length |
| Training.SplitIndexBounds | src/zamboni/training.py:260 | for a percentage in [0, 1] the split index is floor(n * percentage), at most n |
| Training.SplitByPercentagePartition | src/zamboni/training.py:253-266 | the train rows followed by the test rows are the data's known-team rows |
| Training.SplitByPercentagePrefix | src/zamboni/training.py:253-266 | for known-team data, train is the first floor(n * percentage) rows and test the rest |
| Training.PredictionDateBounds | src/zamboni/training.py:311-316 | the first and last rows' dates, and IndexError exactly for no rows |
| Training.DayCountBound | src/zamboni/training.py:361-403 | the day k days after the first is at most the end exactly for the first DayCount days |
| Training.DayTrace | src/zamboni/training.py:363-398 | each call on a day is a fit, or an evaluation of that day; training never happens |
| Training.DayLengths | src/zamboni/training.py:386-398 | a day adds as many predictions as labels, as many as it evaluates; a day without rows adds none |
| Training.DaysLengths | src/zamboni/training.py:361-403 | over the run, predictions and labels have equal length, the count the evaluations report |
| Training.DaysEvents | src/zamboni/training.py:366-398 | the scaler is fit on today's rows on the start date and on the games up to yesterday otherwise; no call trains |
| Training.IncrementalStrategy.RunDay | src/zamboni/training.py:362-401 | the loop body yields exactly the calls and outputs of the day specification |
| Training.IncrementalStrategy.RunDays | src/zamboni/training.py:361-403 | the loop yields the days from the first date, one at a time, while the date is at most the end |
| Training.FirstDayHasRows | src/zamboni/training.py:338-345 | the first prediction row, when its teams are known, is among the first day's rows |
| Training.IncrementalStrategy.RunDaysAsWritten | src/zamboni/training.py:361-403 | the loop as written ends with the loader's AttributeError on the first day with rows, and otherwise yields the run of the days |
| Training.IncrementalStrategy.RunAsWritten | src/zamboni/training.py:331-408 | as written: IndexError for no rows; otherwise the dates are defaulted, and on a data set the first day fails on the loader whenever it is not after the end date |
| Training.IncrementalStrategy.Run | src/zamboni/training.py:331-408 | the corrected run of Findings row 4: fails exactly for no prediction rows; otherwise the dates are defaulted and the output is the run of the days |
| Training.RoundHalfEven | src/zamboni/training.py:469 | the nearest integer, a half going to the even one |
| Training.RoundHalfEvenHalves | src/zamboni/training.py:469 | 0.5 rounds to 0, 1.5 and 2.5 to 2 |
| Training.Ratio | src/zamboni/training.py:488-492 | correct / counted, 0 for nothing counted, within [0, 1] |
| Training.GetAccuracy | src/zamboni/training.py:471-492 | in [0, 1], the share of confident predictions whose rounding equals the label |
| Training.GetAccuracyIgnoresUnconfident | src/zamboni/training.py:478-490 | a prediction within [1 - threshold, threshold] does not change the accuracy |
| Training.GetAccuracyAllCorrect | src/zamboni/training.py:471-492 | when one confident prediction exists and all round to their labels, the accuracy is 1 |
| SqlHelpers.KeyNames | src/zamboni/sql/sql_helpers.py:28 | one name per key column, each the name of a given column or column object |
| SqlHelpers.KeyNamesNormalise | src/zamboni/sql/sql_helpers.py:28 | column objects and column names give the same key names |
| SqlHelpers.UpsertKeyed | src/zamboni/sql/sql_helpers.py:30-40 | after an upsert exactly one row has the key values and holds the values given; every other row is unchanged |
| SqlHelpers.KeyedUpsertResult | src/zamboni/sql/sql_helpers.py:30-61 | with every key given, the upsert succeeds on every dialect with the `ON CONFLICT` result |
| SqlHelpers.UpsertPathsAgree | src/zamboni/sql/sql_helpers.py:30-61 | the fallback path has the `ON CONFLICT` result when every key is given, and differs only for missing or NULL keys |
| SqlHelpers.FallbackEdgeCases | src/zamboni/sql/sql_helpers.py:46-58 | a conflict with a key missing from the values is a ValueError; values of key columns only change nothing |
| SqlHelpers.FallbackUpdatesNonKey | src/zamboni/sql/sql_helpers.py:52-61 | a conflict updates only non-key columns, and only of rows matching every key column |
| SqlHelpers.Table.Upsert | src/zamboni/sql/sql_helpers.py:7-61 | the rows after the upsert are the upsert result for the dialect, unchanged on error |
| SqlHelpers.Table.UpdateAfterConflict | src/zamboni/sql/sql_helpers.py:46-61 | the first missing key is a ValueError, only-key values change nothing, otherwise the matching rows get the non-key values |
| SqlHandler.ParseInt | src/zamboni/sql/sql_handler.py:103 | a digit string reads as its value; anything read is an optional sign and digits |
| SqlHandler.ParseIntString | src/zamboni/sql/sql_handler.py:103-105 | `int(str(n)) == n` |
| SqlHandler.NextRowId | src/zamboni/sql/tables.py:35 | the new id is larger than every stored id |
| SqlHandler.TeamIdOf | src/zamboni/sql/sql_handler.py:64-69 | None exactly when no team has the abbreviation; otherwise the id of one that has |
| SqlHandler.GetTeamIdResult | src/zamboni/sql/sql_handler.py:58-73 | a hit returns the cached id; a miss returns the table's id or -1 and caches a found id; other keys stay |
| SqlHandler.GetTeamIdAgrees | src/zamboni/sql/sql_handler.py:58-73 | with a cache agreeing with the table, the answer is the table's id or -1 and the cache still agrees |
| SqlHandler.SeasonEnsured | src/zamboni/sql/sql_handler.py:102-121 | fails exactly for a non-integer id; otherwise the season is present and a present one is left alone |
| SqlHandler.SeasonEnsuredYears | src/zamboni/sql/sql_handler.py:102-121 | a new season stores startYear = id div 10000 and endYear = id mod 10000; a second call changes nothing |
| SqlHandler.TeamEnsured | src/zamboni/sql/sql_handler.py:123-140 | afterwards the team is present; an absent one is appended as an "Unknown" placeholder |
| SqlHandler.TeamEnsuredKeeps | src/zamboni/sql/sql_handler.py:123-140 | existing teams keep their rows and ids, and a second call changes nothing |
| SqlHandler.PointsAwarded | src/zamboni/sql/sql_handler.py:180-185 | None for an unknown outcome, 2 to the winner, and to the loser 1 for overtime and 0 otherwise |
| SqlHandler.PointsAwardedTotals | src/zamboni/sql/sql_handler.py:180-185 | a decided game awards 2 points plus the overtime flag in total; an unfinished game (outcome and in_ot -1, which is truthy) gives each side 1 |
| SqlHandler.GameEnsured | src/zamboni/sql/sql_handler.py:142-168 | fails exactly for a non-integer season id; otherwise season and both teams are present and games untouched |
| SqlHandler.GameInserted | src/zamboni/sql/sql_handler.py:142-208 | fails exactly for a non-integer season id; otherwise one game row is appended |
| SqlHandler.GameInsertedRecord | src/zamboni/sql/sql_handler.py:142-208 | the appended row holds the game's ids, date, goals, types, points and creation day, and the corrected outcome and inOT of Findings rows 1 and 2 |
| SqlHandler.InsertGameNeverInserts | src/zamboni/sql/sql_handler.py:199-200 | as written no game is ever added; the corrected insert adds every game with an integer season id |
| SqlHandler.GameUpdatedScope | src/zamboni/sql/sql_handler.py:210-226 | only the goals, outcome, inOT and last period of the rows with the api id change; the outcome and inOT written are the corrected ones of Findings rows 1 and 2 |
| SqlHandler.LinesLoadedStopped | src/zamboni/sql/sql_handler.py:228-273 | once a line fails, the later lines are not loaded |
| SqlHandler.LineLoadedKeepsGames | src/zamboni/sql/sql_handler.py:236-273 | loading a line only appends or updates games, and keeps every known outcome known |
| SqlHandler.LinesLoadedKeepGames | src/zamboni/sql/sql_handler.py:236-273 | the same for a whole file |
| SqlHandler.LineLoadedStores | src/zamboni/sql/sql_handler.py:236-273 | every stored game stays stored, and a successful line leaves its game stored |
| SqlHandler.LinesLoadedStore | src/zamboni/sql/sql_handler.py:236-273 | after a file loads without error every line's game is stored, and so is every game stored before |
| SqlHandler.Store.constructor | src/zamboni/sql/sql_handler.py:37-47 | the tables as given and an empty team-id cache; the store starts valid: three distinct tables, only the register has an auto-increment `id`, and each table is unique on its conflict keys |
| SqlHandler.Store.GetTeamId | src/zamboni/sql/sql_handler.py:58-73 | the id and the new cache of the `get_team_id` specification; tables unchanged |
| SqlHandler.Store.EnsureSeason | src/zamboni/sql/sql_handler.py:102-121 | the tables become the ensured season's, unchanged on error |
| SqlHandler.Store.EnsureTeam | src/zamboni/sql/sql_handler.py:123-140 | the tables become the ensured team's |
| SqlHandler.Store.InsertGame | src/zamboni/sql/sql_handler.py:142-208 | the tables become those of the inserted game, unchanged on error |
| SqlHandler.Store.UpdateGame | src/zamboni/sql/sql_handler.py:210-226 | the tables become those of the updated game |
| SqlHandler.Store.LoadLine | src/zamboni/sql/sql_handler.py:250-273 | one line is inserted, updated or skipped as the loading specification says |
| SqlHandler.Store.LoadFile | src/zamboni/sql/sql_handler.py:250-273 | the lines in order, stopping at the first error, as the loading specification says |
| SqlHandler.Store.LoadGames | src/zamboni/sql/sql_handler.py:228-273 | games.txt with updates, then games_today.txt and games_all.txt without, as the specification says |
| SqlHandler.PredictionValues | src/zamboni/sql/sql_handler.py:426-440 | the values keyed by game and predicter; binary is 1 exactly for a prediction above 0.5 |
| SqlHandler.RepeatedPredictionKeepsNewest | src/zamboni/sql/sql_handler.py:426-440 | recording twice for one pair leaves exactly one row for it, holding the second prediction and day |
| SqlHandler.Store.RecordGamePrediction | src/zamboni/sql/sql_handler.py:426-440 | the prediction rows become the upsert of the prediction's values; other tables unchanged; the upsert succeeds and the store stays valid (predictions unique on their key) |
| SqlHandler.LastPredictionDate | src/zamboni/sql/sql_handler.py:532-541 | NULL exactly when the predicter has no dated row; otherwise a date of one row and no earlier than any |
| SqlHandler.RecordedPredictionIsLatest | src/zamboni/sql/sql_handler.py:426-541 | after recording, the predicter's last prediction date is at least the recording day |
| SqlHandler.RegisterValues | src/zamboni/sql/sql_handler.py:442-455 | definition (its property is in SqlHandler.RegisterThenLookup): the register values, with the booleans stored as 0 or 1 and no id |
| SqlHandler.Store.AddPredicterToRegister | src/zamboni/sql/sql_handler.py:442-455 | the register rows become the upsert of the values keyed by name; other tables unchanged; the upsert succeeds and the store stays valid (names unique, every row has an id) |
| SqlHandler.PredicterIdFromName | src/zamboni/sql/sql_handler.py:457-468 | ValueError exactly for an unknown name; otherwise the id of a row with that name |
| SqlHandler.RegisterThenLookup | src/zamboni/sql/sql_handler.py:442-468 | after registering, the name looks up to an integer id; re-registering keeps the id |
| SqlHandler.TrainingValues | src/zamboni/sql/sql_handler.py:470-519 | definition (its property is in SqlHandler.TrainingDateRoundTrip): the predicter id and the date, NULL when none is given |
| SqlHandler.Store.SetTrainingDate | src/zamboni/sql/sql_handler.py:470-519 | the lastTraining rows become the upsert of the training values; other tables unchanged; the upsert succeeds and the store stays valid (one row per predicter) |
| SqlHandler.Store.AddPredicterToLastTraining | src/zamboni/sql/sql_handler.py:470-472 | the lastTraining rows become the upsert with a NULL date; it succeeds and the store stays valid |
| SqlHandler.Store.SetLastTrainingDate | src/zamboni/sql/sql_handler.py:514-519 | the lastTraining rows become the upsert with today's date; it succeeds and the store stays valid |
| SqlHandler.LastTrainingDate | src/zamboni/sql/sql_handler.py:521-530 | None when the predicter has no row; a date comes from one of its rows |
| SqlHandler.TrainingDateRoundTrip | src/zamboni/sql/sql_handler.py:470-530 | adding a predicter reads back None, setting a day reads back that day, and other predicters keep theirs |

## Left out

- Network, file and process I/O: the downloaders, `load_players`, `load_roster_entries`,
  `load_teams` and `load_seasons`, and the CLI, UI, web and LLM code. The lines of the games
  files are parameters of `SqlHandler.Store.LoadGames`.
- Torch and sklearn: the trainer, the model and `StandardScaler`. The scaler's fit and the
  trainer's `eval` are oracles. `scale_data` is modelled from its final assignment only
  (`DataManagement.ZamboniData.SetScaled`), and the scaled values are a parameter.
- `prep_data`'s dataset and loader are not modelled. `Training.IncrementalStrategy.Run`
  records which rows are predicted and with which scaler, not how rows become tensors.
- Training.IncrementalStrategy.RunAsWritten: assumes a handler whose `query_games` returns a
  data frame, as backtest.py:67-73 uses it. The model leaves out `all_games` and `all_zdata`
  (training.py:355-356). The real `SQLHandler.query_games` builds `games_select`, which fails
  as the `Statements.GamesSelect` line says. Its result is `fetchall()`, a list of rows,
  where `ZamboniData.__init__` indexes a column (data_management.py:68) and raises TypeError.
  So with the real handler, `run` fails before its loop.
- Training.IncrementalStrategy.Run: assumes a day's rows can be evaluated. As written, no
  loader is ever created, so the source fails on the first day with rows (Findings row 4,
  `Training.IncrementalStrategy.RunAsWritten`).
- `FullTrainStrategy.run` uses attributes that are never set. `split_by_date` passes None
  dates. Neither is modelled.
- `ConsecutiveStrategy.__init__` never stores a given start date. `Training.IncrementalStrategy`
  takes the start date as given.
- `get_earliest_date_played` calls `sort_values` on a list of rows. Its answer is the parameter
  `earliest` of `Training.IncrementalStrategy.Run`.
- `date_str_to_py` is imported by `sql_handler.py` but is not part of this model, and the
  `utils.py` shown does not define it. It becomes the parameter `dayOf`. Because of that
  import, the real module would fail to load. The model describes the handler as if the import
  succeeded.
- The `strptime` time parse in `insert_game` is not modelled. `timePlayed` is the time string.
- ISO 8601 parsing (`fromisoformat`) is the parameter `isIso`. The tomorrow and yesterday date
  helpers are not modelled.
- Dates are day numbers: `int` in the tables and `real` in frames. The month and year lengths
  of a calendar are not modelled.
- Floating point: predictions, rates, accuracy and confidence are exact `real` numbers, not
  IEEE doubles.
- SQL type affinity is not modelled. An empty goal field, which SQLite would store as text, is
  NULL.
- SqlHandler.ParseInt: does not accept the surrounding whitespace or digit-group underscores
  that Python's `int()` also allows, because the CSV fields are stripped and hold plain
  digits.
- Comparisons with Python `== None` in SQLAlchemy are modelled as `IS NULL`.
- The primary `upsert` path builds a generic SQLAlchemy `insert`, which has no
  `on_conflict_do_update`. `SqlHelpers.Table.Upsert` gives it the `ON CONFLICT DO UPDATE`
  meaning the docstring describes.
- The ORM classes lack some columns the code uses. `Games` has no points-awarded columns.
  `GamesHistoryView` has no `prevWonPercentage`, `prevGoalsPerGame`, `prevOppGoalsPerGame` or
  `prevNum`. The model follows the SQL text of `insert_game` and of the views.
- Statements.GamesSelect: models the select `games_select` evidently intends, not what the code
  builds. As written, the code fails before any query runs:
  - reading `hgh.prevWonPercentage` on the aliased `GamesHistoryView`
    (src/zamboni/sql/statements.py:67) raises AttributeError, because that class has none of
    the four columns above;
  - `func.case([...], else_=1)` (statements.py:78) is a generic SQL function named `case`,
    not SQLAlchemy's `case()` construct.

  The same holds for `Statements.FeatureRows`, `Statements.FeatureColumns`,
  `Statements.GamesSelectWindow` and `Statements.GamesSelectIsReference`. Each reads the
  history view's columns as the view's SQL text defines them
  (`ViewHistory.GamesHistoryIsReference`).
- `update_game` does not recompute points awarded, and neither does the model.
- A game first loaded unfinished stores outcome -1, not NULL. It is then refreshed only with
  `overwrite`, as `SqlHandler.LineLoadedKeepsGames` states.
- `MAX(predictionDate)` is taken over date values only.
- The team-id cache is a field of `SqlHandler.Store`, as `self.team_id_dict` is.
- Concurrency and transactions: each statement is one atomic step.
- SqlHandler.GameInsertedRecord: stores `Sport.Outcome` and `Sport.InOT`, the corrected
  properties of Findings rows 1 and 2, where `insert_game` reads the properties as written.
  They agree on goals of equal width (`Sport.OutcomeAgreesOnEqualWidth`); the stored inOT as
  written would be 1 for every finished game (`Sport.InOTAsWrittenAlwaysOvertime`).
- SqlHandler.Store.InsertGame: the corrected insert of Findings row 3 also uses the corrected
  outcome and inOT, as `SqlHandler.GameInsertedRecord` says.
- SqlHandler.GameUpdated: `update_game` writes `game.outcome` and `game.in_ot` as written; the
  model writes the corrected `Sport.Outcome` and `Sport.InOT` instead.
- SqlHandler.GameUpdatedScope: states the corrected outcome and inOT, as `SqlHandler.GameUpdated` writes them.
- SqlHandler.Store.UpdateGame: writes the corrected outcome and inOT, as `SqlHandler.GameUpdated` does.
- SqlHandler.Store.LoadLine: its update branch writes the corrected outcome and inOT.
- SqlHandler.Store.LoadFile: its updates write the corrected outcome and inOT.
- SqlHandler.Store.LoadGames: its games.txt updates write the corrected outcome and inOT.
- ViewPrevSameOpp.LatestMeetingRow: assumes no team plays two games on one day
  (`OneGamePerDay`). Nothing in the tables ensures it, and split-squad preseason games break
  it. On such a day the join back onto `games_with_previous`, which has no opponent
  condition, keeps a second row, for the game against the other opponent. That case is not
  modelled.
- ViewPrevSameOpp.PrevSameOppIsLatestMeeting: assumes `OneGamePerDay`, as
  `ViewPrevSameOpp.LatestMeetingRow` does; on a split-squad day the view has a second row.
- ViewPrevSameOpp.PrevSameOppFromMaxima: assumes `OneGamePerDay`.
- Statements.FeatureRowsIsReference: assumes `OneGamePerDay`; on a split-squad day the source's
  left join gives the game twice.
- Statements.GamesSelectIsReference: assumes `OneGamePerDay`, as
  `Statements.FeatureRowsIsReference` does.
- Statements.LatestMeetingUnique: assumes `OneGamePerDay`.
- ViewHistory.ValidDb: includes that no game has the same team at home and away. This is an
  assumption about the NHL data, not a constraint of the tables. The view properties are
  stated under it.
- NhlModels.ValidateGames: an explicit null score's TypeError ends the whole validation in the
  source. The model reports it for that game and goes on with the others. Acceptance is the
  same either way.

## Findings

| source | as written | input that shows it | evidently intended | confidence | as-written member | corrected member |
|---|---|---|---|---|---|---|
| src/zamboni/sport.py:99-104 | the goal fields are compared as strings | home "10", away "9" gives outcome 0, an away win | compare the goals as numbers | not executed | Sport.OutcomeAsWrittenTenNine | Sport.Outcome |
| src/zamboni/sport.py:112 | `in_ot` tests `game_type_id` (field 12, the numeric game type) against 'REG' | a regular-season game decided in regulation, game type "2" and last period "REG", gives 1 | test `last_period_type_id` (field 13) | not executed | Sport.InOTAsWrittenRegulationGame | Sport.InOT |
| src/zamboni/sql/sql_handler.py:199-200 | `insert_game` reads `getattr(game, "game_type")` and `"last_period_type"`, attributes a Game does not have | any game with an integer season id raises AttributeError before the insert | read `game_type_id` and `last_period_type_id` | not executed | SqlHandler.InsertGameNeverInserts | SqlHandler.GameInserted |
| src/zamboni/training.py:392 | `run` evaluates `todays_zdata.loader`, but `prep_data` no longer creates a loader (its dataset and dataloader calls are commented out at data_management.py:169-170) | with a handler whose `query_games` returns a data frame, a data set of one known-team game and no end date fails with AttributeError on its first day | `prep_data` builds the day's loader, and every day with rows is evaluated | not executed | Training.IncrementalStrategy.RunAsWritten | Training.IncrementalStrategy.Run |

The corrected members of rows 1 and 2 are also what the store writes. `insert_game`, corrected
as in row 3, and `update_game` store `Sport.Outcome` and `Sport.InOT`, where the source stores
the properties as written (see the `SqlHandler` lines under "## Left out").
