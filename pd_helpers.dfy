/** The row filters of `pd_helpers.py` over a games frame. A missing goal count is pandas
    NaN, and every comparison with NaN is false. */
module PdHelpers {
  import opened Wrappers
  import opened Seqs

  /** The columns of a games frame that the filters read. */
  datatype FrameRow = FrameRow(
    gameTypeID: int,
    seasonID: int,
    homeTeamID: int,
    awayTeamID: int,
    homeTeamGoals: Option<int>,
    awayTeamGoals: Option<int>)

  /** `a > b` on a frame column where NaN compares false. */
  predicate GoalsGreater(a: Option<int>, b: Option<int>)
  {
    a.Some? && b.Some? && a.value > b.value
  }

  function GameTypeMask(typeId: int): FrameRow -> bool
  {
    (row: FrameRow) => row.gameTypeID == typeId
  }

  function SeasonMask(seasonId: int): FrameRow -> bool
  {
    (row: FrameRow) => row.seasonID == seasonId
  }

  function TeamMask(teamId: int): FrameRow -> bool
  {
    (row: FrameRow) => row.homeTeamID == teamId || row.awayTeamID == teamId
  }

  function WonMask(teamId: int): FrameRow -> bool
  {
    (row: FrameRow) => (row.homeTeamID == teamId && GoalsGreater(row.homeTeamGoals, row.awayTeamGoals))
    || (row.awayTeamID == teamId && GoalsGreater(row.awayTeamGoals, row.homeTeamGoals))
  }

  /** `filter_by_game_type`: the rows of that game type, in order. */
  function FilterByGameType(df: seq<FrameRow>, typeId: int): (r: seq<FrameRow>)
    ensures IsSubsequence(r, df)
    ensures forall row :: row in r <==> row in df && row.gameTypeID == typeId
    ensures forall row :: multiset(r)[row] == if row.gameTypeID == typeId then multiset(df)[row] else 0
  {
    FilterIsSubsequence(df, GameTypeMask(typeId));
    FilterMembers(df, GameTypeMask(typeId));
    FilterMultiplicities(df, GameTypeMask(typeId));
    Filter(df, GameTypeMask(typeId))
  }

  /** `filter_by_season`: the rows of that season, in order. */
  function FilterBySeason(df: seq<FrameRow>, seasonId: int): (r: seq<FrameRow>)
    ensures IsSubsequence(r, df)
    ensures forall row :: row in r <==> row in df && row.seasonID == seasonId
    ensures forall row :: multiset(r)[row] == if row.seasonID == seasonId then multiset(df)[row] else 0
  {
    FilterIsSubsequence(df, SeasonMask(seasonId));
    FilterMembers(df, SeasonMask(seasonId));
    FilterMultiplicities(df, SeasonMask(seasonId));
    Filter(df, SeasonMask(seasonId))
  }

  /** `filter_by_team`: the rows where the team plays at home or away, in order. */
  function FilterByTeam(df: seq<FrameRow>, teamId: int): (r: seq<FrameRow>)
    ensures IsSubsequence(r, df)
    ensures forall row :: row in r <==> row in df && (row.homeTeamID == teamId || row.awayTeamID == teamId)
    ensures forall row: FrameRow ::
      multiset(r)[row] == if row.homeTeamID == teamId || row.awayTeamID == teamId then multiset(df)[row] else 0
  {
    FilterIsSubsequence(df, TeamMask(teamId));
    FilterMembers(df, TeamMask(teamId));
    FilterMultiplicities(df, TeamMask(teamId));
    Filter(df, TeamMask(teamId))
  }

  /** `won_by_team`: the rows the team won, at home or away, in order. */
  function WonByTeam(df: seq<FrameRow>, teamId: int): (r: seq<FrameRow>)
    ensures IsSubsequence(r, df)
    ensures forall row :: row in r <==>
      && row in df
      && ((row.homeTeamID == teamId && GoalsGreater(row.homeTeamGoals, row.awayTeamGoals))
          || (row.awayTeamID == teamId && GoalsGreater(row.awayTeamGoals, row.homeTeamGoals)))
    ensures forall row: FrameRow ::
      multiset(r)[row] == if WonMask(teamId)(row) then multiset(df)[row] else 0
  {
    FilterIsSubsequence(df, WonMask(teamId));
    FilterMembers(df, WonMask(teamId));
    FilterMultiplicities(df, WonMask(teamId));
    Filter(df, WonMask(teamId))
  }

  /** `_wins_game`: whether the team won this one row. */
  function WinsGame(row: FrameRow, teamId: int): bool
  {
    var homeWin := row.homeTeamID == teamId && GoalsGreater(row.homeTeamGoals, row.awayTeamGoals);
    var awayWin := row.awayTeamID == teamId
                   && row.homeTeamGoals.Some? && row.awayTeamGoals.Some?
                   && row.homeTeamGoals.value < row.awayTeamGoals.value;
    homeWin || awayWin
  }

  /** `_wins_game` decides a row exactly as `won_by_team` does. */
  lemma WinsGameMatchesWonByTeam(df: seq<FrameRow>, teamId: int, row: FrameRow)
    requires row in df
    ensures WinsGame(row, teamId) <==> row in WonByTeam(df, teamId)
  {
  }

  /** A tied or unplayed game is never counted as won, by either team. */
  lemma TiesNeverWon(df: seq<FrameRow>, teamId: int, row: FrameRow)
    requires row.homeTeamGoals == row.awayTeamGoals || row.homeTeamGoals.None? || row.awayTeamGoals.None?
    ensures row !in WonByTeam(df, teamId)
  {
  }

  /** The games a team won are an ordered selection of the games it played. */
  lemma WonIsSubsequenceOfTeam(df: seq<FrameRow>, teamId: int)
    ensures IsSubsequence(WonByTeam(df, teamId), FilterByTeam(df, teamId))
  {
    FilterStricterIsSubsequence(df, WonMask(teamId), TeamMask(teamId));
  }

  /** In a decided game between two different teams exactly one of them won. */
  lemma DecidedGameHasOneWinner(row: FrameRow)
    requires row.homeTeamID != row.awayTeamID
    requires row.homeTeamGoals.Some? && row.awayTeamGoals.Some?
    requires row.homeTeamGoals.value != row.awayTeamGoals.value
    ensures WinsGame(row, row.homeTeamID) != WinsGame(row, row.awayTeamID)
  {
  }

  /** Filtering by season then by team selects the rows of that team in that season, every
      copy of them. */
  lemma SeasonThenTeam(df: seq<FrameRow>, seasonId: int, teamId: int)
    ensures forall row :: row in FilterByTeam(FilterBySeason(df, seasonId), teamId) <==>
      row in df && row.seasonID == seasonId && (row.homeTeamID == teamId || row.awayTeamID == teamId)
    ensures forall row: FrameRow ::
      var both := row.seasonID == seasonId && (row.homeTeamID == teamId || row.awayTeamID == teamId);
      multiset(FilterByTeam(FilterBySeason(df, seasonId), teamId))[row] == if both then multiset(df)[row] else 0
  {
  }
}
