/** The validators of the NHL API response models in `nhl_models.py`. A model is accepted when
    its validation yields no violation. As in pydantic, every field validator runs, in
    field-definition order, and a model validator runs only once all fields are valid. Only the
    fields a validator reads are kept in the records below. The ISO 8601 parser behind
    `datetime.fromisoformat` is a parameter, `isIso`. */
module NhlModels {
  import opened Wrappers
  import opened Utils
  import opened Seqs

  datatype Violation =
    | NegativeScore
    | ScoreTypeError
    | InvalidDatetime(value: string)
    | InvalidSeason(season: int)
    | InvalidGameState(state: string)
    | MissingResult
    | InvalidDate(value: string)
    | InvalidSweaterNumber(number: int)
    | InvalidPosition(position: string)
    | NegativeGames(field: string)
    | NegativeRecord(field: string)
    | NegativeGoals(field: string)

  // ---------------------------------------------------------------------------------------
  // Teams

  /** A `TeamDetails.score` as the response gives it: left out (the field then takes its
      default None, which pydantic does not validate), an explicit JSON null, or a number. */
  datatype Score = Unset | Null | Number(value: int)

  /** `TeamDetails`: `score` is left out for games not yet played. */
  datatype TeamDetails = TeamDetails(id: int, abbrev: string, score: Score)

  /** `TeamDetails.score_non_negative`. It does not run on a score left out; on an explicit
      null it evaluates `None < 0`, whose TypeError is not a validation error and so ends the
      whole validation (ScoreTypeError). */
  function ValidateTeamDetails(t: TeamDetails): (r: seq<Violation>)
    ensures r == [] <==> t.score.Unset? || (t.score.Number? && t.score.value >= 0)
    ensures t.score.Null? ==> r == [ScoreTypeError]
  {
    match t.score
    case Unset => []
    case Null => [ScoreTypeError]
    case Number(v) => if v < 0 then [NegativeScore] else []
  }

  // ---------------------------------------------------------------------------------------
  // Games

  datatype GameOutcome = GameOutcome(lastPeriodType: Option<string>)

  /** `Game`, with the fields its validators read. */
  datatype Game = Game(
    id: int,
    season: int,
    gameType: int,
    startTimeUTC: string,
    gameState: string,
    awayTeam: TeamDetails,
    homeTeam: TeamDetails,
    gameOutcome: Option<GameOutcome>)

  /** Python `s.replace(c, t)` for a single character `c`. */
  function ReplaceChar(s: string, c: char, t: string): (r: string)
    ensures c !in t ==> c !in r
  {
    if s == [] then []
    else (if s[0] == c then t else [s[0]]) + ReplaceChar(s[1..], c, t)
  }

  const ValidGameStates: set<string> := {"OFF", "FINAL", "FUT", "LIVE", "CRIT", "PRE"}

  /** `Game.validate_season`: the decimal form of the season has exactly 8 characters. */
  function ValidateSeason(v: int): (r: seq<Violation>)
    ensures r == [] <==> |IntToString(v)| == 8
  {
    if |IntToString(v)| != 8 then [InvalidSeason(v)] else []
  }

  /** `Game.validate_datetime`: ISO 8601 once a 'Z' suffix is read as "+00:00". */
  function ValidateStartTime(v: string, isIso: string -> bool): (r: seq<Violation>)
    ensures r == [] <==> isIso(ReplaceChar(v, 'Z', "+00:00"))
  {
    if !isIso(ReplaceChar(v, 'Z', "+00:00")) then [InvalidDatetime(v)] else []
  }

  /** `Game.validate_game_state`. */
  function ValidateGameState(v: string): (r: seq<Violation>)
    ensures r == [] <==> v in ValidGameStates
  {
    if v !in ValidGameStates then [InvalidGameState(v)] else []
  }

  /** `Game.validate_finished_state`: a FINAL or OFF game needs an outcome and both scores
      (a score that is None, left out or null, is missing). */
  function ValidateFinishedState(g: Game): (r: seq<Violation>)
    ensures r == [] <==> (g.gameState == "FINAL" || g.gameState == "OFF")
                         ==> g.gameOutcome.Some? && g.awayTeam.score.Number? && g.homeTeam.score.Number?
  {
    if (g.gameOutcome.None? || !g.awayTeam.score.Number? || !g.homeTeam.score.Number?)
       && (g.gameState == "FINAL" || g.gameState == "OFF")
    then [MissingResult]
    else []
  }

  /** All validation of a `Game`: its field validators (season, startTimeUTC, gameState, then
      the nested away and home teams, in field order), then, only when those all pass, the
      model validator. A null score's TypeError replaces everything collected so far. */
  function ValidateGame(g: Game, isIso: string -> bool): seq<Violation>
  {
    if g.awayTeam.score.Null? || g.homeTeam.score.Null? then [ScoreTypeError]
    else
    var fieldErrors := ValidateSeason(g.season) + ValidateStartTime(g.startTimeUTC, isIso)
                       + ValidateGameState(g.gameState) + ValidateTeamDetails(g.awayTeam)
                       + ValidateTeamDetails(g.homeTeam);
    if fieldErrors != [] then fieldErrors else ValidateFinishedState(g)
  }

  /** `GameDay`, with its date and its games. */
  datatype GameDay = GameDay(date: string, games: seq<Game>)

  /** The violations of a list of games, game by game. */
  function ValidateGames(games: seq<Game>, isIso: string -> bool): seq<Violation>
  {
    FlatMap(games, GameChecks(isIso))
  }

  function GameChecks(isIso: string -> bool): Game -> seq<Violation>
  {
    (g: Game) => ValidateGame(g, isIso)
  }

  /** `GameDay.validate_date`, then every nested game. */
  function ValidateGameDay(d: GameDay, isIso: string -> bool): seq<Violation>
  {
    (if !isIso(d.date) then [InvalidDate(d.date)] else []) + ValidateGames(d.games, isIso)
  }

  // ---------------------------------------------------------------------------------------
  // Players and rosters

  const PlayerPositions: set<string> := {"C", "L", "R", "D", "G", "U"}
  const RosterPositions: set<string> := {"C", "L", "R", "D", "G"}

  /** `PlayerResponse`: both fields may be missing. */
  datatype PlayerResponse = PlayerResponse(sweaterNumber: Option<int>, position: Option<string>)

  function ValidatePlayerResponse(p: PlayerResponse): seq<Violation>
  {
    (if p.sweaterNumber.Some? && (p.sweaterNumber.value < 0 || p.sweaterNumber.value > 99)
     then [InvalidSweaterNumber(p.sweaterNumber.value)] else [])
    + (if p.position.Some? && p.position.value !in PlayerPositions
       then [InvalidPosition(p.position.value)] else [])
  }

  /** `RosterPlayer`: both fields are required. */
  datatype RosterPlayer = RosterPlayer(id: int, sweaterNumber: int, position: string, status: string)

  function ValidateRosterPlayer(p: RosterPlayer): seq<Violation>
  {
    (if p.sweaterNumber < 0 || p.sweaterNumber > 99 then [InvalidSweaterNumber(p.sweaterNumber)] else [])
    + (if p.position !in RosterPositions then [InvalidPosition(p.position)] else [])
  }

  // ---------------------------------------------------------------------------------------
  // Standings

  /** `StandingsEntry`, with the eighteen fields that carry a validator. */
  datatype StandingsEntry = StandingsEntry(
    gamesPlayed: int,
    date: string,
    wins: int,
    losses: int,
    otLosses: int,
    ties: int,
    points: int,
    goalFor: int,
    goalAgainst: int,
    homeGamesPlayed: int,
    homeGoalsFor: int,
    homeGoalsAgainst: int,
    roadGamesPlayed: int,
    roadGoalsFor: int,
    roadGoalsAgainst: int,
    l10GamesPlayed: int,
    l10GoalsFor: int,
    l10GoalsAgainst: int)

  function NonNegative(v: int, violation: Violation): seq<Violation>
  {
    if v < 0 then [violation] else []
  }

  /** The field validators of `StandingsEntry`, in field-definition order. */
  function ValidateStandingsEntry(e: StandingsEntry, isIso: string -> bool): seq<Violation>
  {
    NonNegative(e.gamesPlayed, NegativeGames("gamesPlayed"))
    + (if !isIso(e.date) then [InvalidDate(e.date)] else [])
    + NonNegative(e.wins, NegativeRecord("wins"))
    + NonNegative(e.losses, NegativeRecord("losses"))
    + NonNegative(e.otLosses, NegativeRecord("otLosses"))
    + NonNegative(e.ties, NegativeRecord("ties"))
    + NonNegative(e.points, NegativeRecord("points"))
    + NonNegative(e.goalFor, NegativeGoals("goalFor"))
    + NonNegative(e.goalAgainst, NegativeGoals("goalAgainst"))
    + NonNegative(e.homeGamesPlayed, NegativeGames("homeGamesPlayed"))
    + NonNegative(e.homeGoalsFor, NegativeGoals("homeGoalsFor"))
    + NonNegative(e.homeGoalsAgainst, NegativeGoals("homeGoalsAgainst"))
    + NonNegative(e.roadGamesPlayed, NegativeGames("roadGamesPlayed"))
    + NonNegative(e.roadGoalsFor, NegativeGoals("roadGoalsFor"))
    + NonNegative(e.roadGoalsAgainst, NegativeGoals("roadGoalsAgainst"))
    + NonNegative(e.l10GamesPlayed, NegativeGames("l10GamesPlayed"))
    + NonNegative(e.l10GoalsFor, NegativeGoals("l10GoalsFor"))
    + NonNegative(e.l10GoalsAgainst, NegativeGoals("l10GoalsAgainst"))
  }

  // ---------------------------------------------------------------------------------------
  // Properties

  /** An 8-character season is an 8-digit number, or a minus sign and 7 digits. */
  lemma SeasonAcceptedRange(v: int)
    ensures ValidateSeason(v) == []
      <==> (10000000 <= v <= 99999999 || -9999999 <= v <= -1000000)
  {
    assert Pow10(6) == 1000000;
    assert Pow10(7) == 10000000;
    assert Pow10(8) == 100000000;
    if v >= 0 {
      NatToStringLengthIff(v, 8);
      NatToStringLengthIff(v, 7);
    } else {
      NatToStringLengthIff(-v, 7);
      NatToStringLengthIff(-v, 6);
    }
  }

  /** The season 20242025 is accepted; 2025 is not. */
  lemma SeasonExamples()
    ensures ValidateSeason(20242025) == []
    ensures ValidateSeason(2025) == [InvalidSeason(2025)]
  {
    SeasonAcceptedRange(20242025);
    SeasonAcceptedRange(2025);
  }

  /** A game is accepted exactly when its season has 8 characters, its start time parses,
      its state is known, each score is left out or a non-negative number, and a finished game
      has its outcome and both scores. */
  lemma GameAccepted(g: Game, isIso: string -> bool)
    ensures ValidateGame(g, isIso) == [] <==>
      && |IntToString(g.season)| == 8
      && isIso(ReplaceChar(g.startTimeUTC, 'Z', "+00:00"))
      && g.gameState in ValidGameStates
      && (g.awayTeam.score.Unset? || (g.awayTeam.score.Number? && g.awayTeam.score.value >= 0))
      && (g.homeTeam.score.Unset? || (g.homeTeam.score.Number? && g.homeTeam.score.value >= 0))
      && ((g.gameState == "FINAL" || g.gameState == "OFF")
          ==> g.gameOutcome.Some? && g.awayTeam.score.Number? && g.homeTeam.score.Number?)
  {
  }

  /** An explicit null score ends the validation of a game with the TypeError alone, whatever
      its other fields hold. */
  lemma NullScoreRaises(g: Game, isIso: string -> bool)
    requires g.awayTeam.score.Null? || g.homeTeam.score.Null?
    ensures ValidateGame(g, isIso) == [ScoreTypeError]
    ensures g.homeTeam.score.Null? ==> ValidateTeamDetails(g.homeTeam) == [ScoreTypeError]
  {
  }

  /** A finished game with a missing score is rejected by the model validator alone. */
  lemma FinishedGameNeedsScores(g: Game, isIso: string -> bool)
    requires g.gameState == "FINAL" || g.gameState == "OFF"
    requires g.homeTeam.score.Unset?
    ensures ValidateGame(g, isIso) != []
    ensures ValidateSeason(g.season) == [] && ValidateStartTime(g.startTimeUTC, isIso) == []
            && ValidateTeamDetails(g.awayTeam) == []
            ==> ValidateGame(g, isIso) == [MissingResult]
  {
  }

  /** A game that is scheduled or in progress may leave out its outcome and scores. */
  lemma UnfinishedGameMayOmitResult(g: Game, isIso: string -> bool)
    requires g.gameState in {"FUT", "LIVE", "CRIT", "PRE"}
    requires |IntToString(g.season)| == 8 && isIso(ReplaceChar(g.startTimeUTC, 'Z', "+00:00"))
    requires g.gameOutcome.None? && g.awayTeam.score.Unset? && g.homeTeam.score.Unset?
    ensures ValidateGame(g, isIso) == []
  {
  }

  /** A day is accepted exactly when its date parses and every game on it is accepted. */
  lemma GamesAccepted(games: seq<Game>, isIso: string -> bool)
    ensures ValidateGames(games, isIso) == [] <==>
            forall i :: 0 <= i < |games| ==> ValidateGame(games[i], isIso) == []
  {
    FlatMapEmpty(games, GameChecks(isIso));
  }

  lemma GameDayAccepted(d: GameDay, isIso: string -> bool)
    ensures ValidateGameDay(d, isIso) == [] <==>
            isIso(d.date) && forall i :: 0 <= i < |d.games| ==> ValidateGame(d.games[i], isIso) == []
  {
    GamesAccepted(d.games, isIso);
  }

  /** `PlayerResponse` accepts a missing or 0..99 number and a missing or known position. */
  lemma PlayerResponseAccepted(p: PlayerResponse)
    ensures ValidatePlayerResponse(p) == [] <==>
      && (p.sweaterNumber.None? || 0 <= p.sweaterNumber.value <= 99)
      && (p.position.None? || p.position.value in {"C", "L", "R", "D", "G", "U"})
  {
  }

  /** `RosterPlayer` requires a 0..99 number and one of C, L, R, D, G. */
  lemma RosterPlayerAccepted(p: RosterPlayer)
    ensures ValidateRosterPlayer(p) == [] <==>
      0 <= p.sweaterNumber <= 99 && p.position in {"C", "L", "R", "D", "G"}
  {
  }

  /** Position "U" passes for a player lookup but not for a roster entry. */
  lemma PositionUnknownOnlyForPlayers(n: int)
    requires 0 <= n <= 99
    ensures ValidatePlayerResponse(PlayerResponse(Some(n), Some("U"))) == []
    ensures ValidateRosterPlayer(RosterPlayer(0, n, "U", "active")) == [InvalidPosition("U")]
  {
    assert "U" !in RosterPositions;
  }

  /** A standings entry is accepted exactly when its date parses and all seventeen count
      fields are non-negative. */
  lemma StandingsEntryAccepted(e: StandingsEntry, isIso: string -> bool)
    ensures ValidateStandingsEntry(e, isIso) == [] <==>
      && isIso(e.date)
      && e.gamesPlayed >= 0 && e.homeGamesPlayed >= 0 && e.roadGamesPlayed >= 0 && e.l10GamesPlayed >= 0
      && e.wins >= 0 && e.losses >= 0 && e.otLosses >= 0 && e.ties >= 0 && e.points >= 0
      && e.goalFor >= 0 && e.goalAgainst >= 0 && e.homeGoalsFor >= 0 && e.homeGoalsAgainst >= 0
      && e.roadGoalsFor >= 0 && e.roadGoalsAgainst >= 0 && e.l10GoalsFor >= 0 && e.l10GoalsAgainst >= 0
  {
  }

  /** A negative count is reported once, under its own field name. */
  lemma NegativeWinsReported(e: StandingsEntry, isIso: string -> bool)
    requires e.wins < 0
    ensures NegativeRecord("wins") in ValidateStandingsEntry(e, isIso)
  {
  }
}
