/** The two selects of `sql/statements.py`: the feature rows for training (`games_select`)
    and the games with their predictions (`games_with_predictions_select`). */
module Statements {
  import opened Wrappers
  import opened Seqs
  import opened ViewStatements
  import opened ViewHistory
  import opened ViewPrevSameOpp

  // ---------------------------------------------------------------------------------------
  // games_select

  /** A row of `games_select`. A column read from a LEFT JOINed view is NULL when the join
      found no row. */
  datatype FeatureRow = FeatureRow(
    id: int,
    homeTeamID: int,
    homePrevWonPercentage: Option<real>,
    homePrevGoalsPerGame: Option<real>,
    homePrevOppGoalsPerGame: Option<real>,
    homeGameOfSeason: Option<int>,
    awayTeamID: int,
    awayPrevWonPercentage: Option<real>,
    awayPrevGoalsPerGame: Option<real>,
    awayPrevOppGoalsPerGame: Option<real>,
    awayGameOfSeason: Option<int>,
    prevMatchupOutcome: int,
    prevMatchupInOT: int,
    hasPreviousMatchup: int,
    outcome: Option<int>,
    inOT: Option<int>,
    datePlayed: int)

  /** The SELECT list for one game, its home and away history rows and its prior-meeting row. */
  function Feature(g: GameRow, hgh: Option<HistoryRow>, agh: Option<HistoryRow>, gpso: Option<PrevSameOppRow>): FeatureRow
  {
    var prevOutcome := if gpso.Some? then gpso.value.prevOutcome else None;
    var prevInOT := if gpso.Some? then gpso.value.prevInOT else None;
    FeatureRow(
      g.id, g.homeTeamID,
      if hgh.Some? then Some(hgh.value.prevWonPercentage) else None,
      if hgh.Some? then Some(hgh.value.prevGoalsPerGame) else None,
      if hgh.Some? then Some(hgh.value.prevOppGoalsPerGame) else None,
      if hgh.Some? then Some(hgh.value.prevNum + 1) else None,
      g.awayTeamID,
      if agh.Some? then Some(agh.value.prevWonPercentage) else None,
      if agh.Some? then Some(agh.value.prevGoalsPerGame) else None,
      if agh.Some? then Some(agh.value.prevOppGoalsPerGame) else None,
      if agh.Some? then Some(agh.value.prevNum + 1) else None,
      prevOutcome.GetOr(0),
      prevInOT.GetOr(0),
      if prevOutcome.None? then 0 else 1,
      g.outcome, g.inOT, g.datePlayed)
  }

  function FeatureOf(g: GameRow, hgh: Option<HistoryRow>, agh: Option<HistoryRow>): PrevSameOppRow -> FeatureRow
  {
    (x: PrevSameOppRow) => Feature(g, hgh, agh, Some(x))
  }

  /** The three LEFT JOINs for one game: one history row per side (a GROUP BY key matches at
      most one row), and every prior-meeting row, or one NULL row when there is none. */
  function FeatureRows(games: seq<GameRow>, teams: seq<TeamRow>, g: GameRow): (r: seq<FeatureRow>)
    ensures |r| >= 1
  {
    var hgh := GamesHistory(games, teams, g.id, g.homeTeamID);
    var agh := GamesHistory(games, teams, g.id, g.awayTeamID);
    var gpso := GamesPrevSameOpp(games, teams, g.id);
    if gpso == [] then [Feature(g, hgh, agh, None)] else Map(gpso, FeatureOf(g, hgh, agh))
  }

  function FeatureRowsOf(games: seq<GameRow>, teams: seq<TeamRow>): GameRow -> seq<FeatureRow>
  {
    (g: GameRow) => FeatureRows(games, teams, g)
  }

  /** The WHERE of `games_select`: with a start date both bounds, without one only the end;
      both bounds are inclusive. */
  predicate InDateWindow(startDate: Option<int>, endDate: int, date: int)
  {
    if startDate.Some? then startDate.value <= date <= endDate else date <= endDate
  }

  function DateWindow(startDate: Option<int>, endDate: int): GameRow -> bool
  {
    (g: GameRow) => InDateWindow(startDate, endDate, g.datePlayed)
  }

  /** `games_select(start_date, end_date)`. */
  function GamesSelect(games: seq<GameRow>, teams: seq<TeamRow>, startDate: Option<int>, endDate: int): seq<FeatureRow>
  {
    FlatMap(Filter(games, DateWindow(startDate, endDate)), FeatureRowsOf(games, teams))
  }

  /** The latest of a non-empty list of games, the first one on ties. */
  function Latest(ms: seq<GameRow>): (m: GameRow)
    requires ms != []
    ensures m in ms
    ensures forall o :: o in ms ==> o.datePlayed <= m.datePlayed
  {
    if |ms| == 1 then ms[0]
    else
      var r := Latest(ms[1..]);
      if ms[0].datePlayed >= r.datePlayed then ms[0] else r
  }

  /** The feature row of a game computed from its teams' records and its latest prior meeting. */
  function ReferenceFeature(games: seq<GameRow>, g: GameRow): FeatureRow
  {
    var ms := Meetings(games, g);
    var gpso := if ms == [] then None
                else var m := Latest(ms); Some(PrevSameOppRow(g.id, Some(m.id), m.outcome, m.inOT));
    Feature(g, Some(ReferenceHistory(games, g, g.homeTeamID)), Some(ReferenceHistory(games, g, g.awayTeamID)), gpso)
  }

  // ---------------------------------------------------------------------------------------

  /** The columns of a feature row: game of season is prevNum + 1, the prior-meeting columns
      default to 0, and hasPreviousMatchup is 0 exactly when the prior outcome is NULL. */
  lemma FeatureColumns(g: GameRow, hgh: Option<HistoryRow>, agh: Option<HistoryRow>, gpso: Option<PrevSameOppRow>)
    ensures var r := Feature(g, hgh, agh, gpso);
      && (hgh.Some? ==> r.homeGameOfSeason == Some(hgh.value.prevNum + 1))
      && (hgh.None? ==> r.homeGameOfSeason.None? && r.homePrevWonPercentage.None?)
      && (agh.Some? ==> r.awayGameOfSeason == Some(agh.value.prevNum + 1))
      && (agh.None? ==> r.awayGameOfSeason.None? && r.awayPrevWonPercentage.None?)
      && (gpso.None? ==> r.prevMatchupOutcome == 0 && r.prevMatchupInOT == 0 && r.hasPreviousMatchup == 0)
      && (gpso.Some? && gpso.value.prevOutcome.Some? ==> r.prevMatchupOutcome == gpso.value.prevOutcome.value)
      && (r.hasPreviousMatchup == 0 <==> gpso.None? || gpso.value.prevOutcome.None?)
      && (r.hasPreviousMatchup == 0 || r.hasPreviousMatchup == 1)
      && r.id == g.id && r.datePlayed == g.datePlayed && r.outcome == g.outcome
  {
  }

  /** Every selected row is a game inside the date window, and every game inside the window
      yields at least one row: the LEFT JOINs never drop a game. */
  lemma GamesSelectWindow(games: seq<GameRow>, teams: seq<TeamRow>, startDate: Option<int>, endDate: int)
    ensures forall r :: r in GamesSelect(games, teams, startDate, endDate) ==>
      exists g :: g in games && g.id == r.id && InDateWindow(startDate, endDate, g.datePlayed) && r.datePlayed == g.datePlayed
    ensures forall g :: g in games && InDateWindow(startDate, endDate, g.datePlayed) ==>
      exists r :: r in GamesSelect(games, teams, startDate, endDate) && r.id == g.id
  {
    var sel := Filter(games, DateWindow(startDate, endDate));
    var f := FeatureRowsOf(games, teams);
    forall r | r in GamesSelect(games, teams, startDate, endDate)
      ensures exists g :: g in games && g.id == r.id && InDateWindow(startDate, endDate, g.datePlayed) && r.datePlayed == g.datePlayed
    {
      FlatMapMember(sel, f, r);
      var i :| 0 <= i < |sel| && r in f(sel[i]);
      FilterMember(games, DateWindow(startDate, endDate), sel[i]);
      FeatureRowsKeys(games, teams, sel[i], r);
    }
    forall g | g in games && InDateWindow(startDate, endDate, g.datePlayed)
      ensures exists r :: r in GamesSelect(games, teams, startDate, endDate) && r.id == g.id
    {
      FilterMember(games, DateWindow(startDate, endDate), g);
      var i :| 0 <= i < |sel| && sel[i] == g;
      var r := f(g)[0];
      FeatureRowsKeys(games, teams, g, r);
      FlatMapMember(sel, f, r);
    }
  }

  lemma FeatureRowsKeys(games: seq<GameRow>, teams: seq<TeamRow>, g: GameRow, r: FeatureRow)
    requires r in FeatureRows(games, teams, g)
    ensures r.id == g.id && r.datePlayed == g.datePlayed
  {
  }

  /** Under the primary and foreign keys and one game per team and day, `games_select` has
      exactly one row per game in the date window, in table order, and that row is the
      reference feature row: the two teams' earlier same-season records and the latest
      earlier meeting of the two teams. */
  lemma GamesSelectIsReference(games: seq<GameRow>, teams: seq<TeamRow>, startDate: Option<int>, endDate: int)
    requires ValidDb(games, teams) && TeamsPresent(games, teams) && OneGamePerDay(games)
    ensures var sel := Filter(games, DateWindow(startDate, endDate));
      var rows := GamesSelect(games, teams, startDate, endDate);
      |rows| == |sel| && forall i :: 0 <= i < |sel| ==> rows[i] == ReferenceFeature(games, sel[i])
  {
    var sel := Filter(games, DateWindow(startDate, endDate));
    forall i | 0 <= i < |sel|
      ensures FeatureRowsOf(games, teams)(sel[i]) == [ReferenceFeature(games, sel[i])]
    {
      FilterMember(games, DateWindow(startDate, endDate), sel[i]);
      FeatureRowsIsReference(games, teams, sel[i]);
    }
    FlatMapSingletons(sel, FeatureRowsOf(games, teams), (g: GameRow) => ReferenceFeature(games, g));
  }

  /** The latest meeting is determined: two meetings on the latest date are the same game. */
  lemma LatestMeetingUnique(games: seq<GameRow>, g: GameRow, m: GameRow)
    requires OneGamePerDay(games)
    requires m in Meetings(games, g)
    requires forall o :: o in Meetings(games, g) ==> o.datePlayed <= m.datePlayed
    ensures m == Latest(Meetings(games, g))
  {
    var l := Latest(Meetings(games, g));
    FilterMember(games, MeetsMask(g), m);
    FilterMember(games, MeetsMask(g), l);
    assert Plays(m, g.homeTeamID) && Plays(l, g.homeTeamID);
  }

  lemma FeatureRowsIsReference(games: seq<GameRow>, teams: seq<TeamRow>, g: GameRow)
    requires ValidDb(games, teams) && TeamsPresent(games, teams) && OneGamePerDay(games)
    requires g in games
    ensures FeatureRows(games, teams, g) == [ReferenceFeature(games, g)]
  {
    assert TeamListed(teams, g.homeTeamID) && TeamListed(teams, g.awayTeamID);
    GamesHistoryIsReference(games, teams, g, g.homeTeamID);
    GamesHistoryIsReference(games, teams, g, g.awayTeamID);
    PrevSameOppIsLatestMeeting(games, teams, g);
    if Meetings(games, g) != [] {
      var m :| && m in Meetings(games, g)
               && (forall o :: o in Meetings(games, g) ==> o.datePlayed <= m.datePlayed)
               && GamesPrevSameOpp(games, teams, g.id) == [PrevSameOppRow(g.id, Some(m.id), m.outcome, m.inOT)];
      LatestMeetingUnique(games, g, m);
    }
  }

  // ---------------------------------------------------------------------------------------
  // games_with_predictions_select

  /** A row of `gamePredictions`; (gameID, predicterID) is its primary key. */
  datatype PredictionRow = PredictionRow(gameID: int, predicterID: int, prediction: real, predictionBinary: bool, predictionDate: int)

  /** A row of `predicterRegister`. */
  datatype PredicterRow = PredicterRow(id: int, predicterName: string, predicterType: string, predicterPath: string, trainable: bool, active: Option<bool>)

  /** A row of `games_with_predictions_select`. */
  datatype GamePredictionRow = GamePredictionRow(
    id: int,
    homeTeamID: int,
    homeTeam: string,
    homeAbbrev: string,
    awayTeamID: int,
    awayTeam: string,
    awayAbbrev: string,
    datePlayed: int,
    homeTeamGoals: Option<int>,
    awayTeamGoals: Option<int>,
    outcome: Option<int>,
    inOT: Option<int>,
    prediction: real,
    predicterName: string)

  function Project(g: GameRow, pr: PredictionRow, rg: PredicterRow, home: TeamRow, away: TeamRow): GamePredictionRow
  {
    GamePredictionRow(g.id, g.homeTeamID, home.name, home.nameAbbrev, g.awayTeamID, away.name, away.nameAbbrev,
                      g.datePlayed, g.homeTeamGoals, g.awayTeamGoals, g.outcome, g.inOT,
                      pr.prediction, rg.predicterName)
  }

  /** The WHERE of the select: an active predicter (`active = 1`, so NULL fails) and a game
      date inside [start, end]. */
  predicate Selected(g: GameRow, rg: PredicterRow, startDate: int, endDate: int)
  {
    rg.active == Some(true) && startDate <= g.datePlayed <= endDate
  }

  function PredictionKey(g: GameRow): PredictionRow -> bool
  {
    (pr: PredictionRow) => pr.gameID == g.id
  }

  function PredicterKey(pr: PredictionRow): PredicterRow -> bool
  {
    (rg: PredicterRow) => rg.id == pr.predicterID
  }

  /** The innermost INNER JOIN (away team) and the WHERE. */
  function AwayJoin(g: GameRow, pr: PredictionRow, rg: PredicterRow, home: TeamRow, startDate: int, endDate: int): TeamRow -> seq<GamePredictionRow>
  {
    (away: TeamRow) => if Selected(g, rg, startDate, endDate) then [Project(g, pr, rg, home, away)] else []
  }

  function HomeJoin(teams: seq<TeamRow>, g: GameRow, pr: PredictionRow, rg: PredicterRow, startDate: int, endDate: int): TeamRow -> seq<GamePredictionRow>
  {
    (home: TeamRow) => FlatMap(Filter(teams, TeamIdIs(g.awayTeamID)), AwayJoin(g, pr, rg, home, startDate, endDate))
  }

  function PredicterJoin(teams: seq<TeamRow>, g: GameRow, pr: PredictionRow, startDate: int, endDate: int): PredicterRow -> seq<GamePredictionRow>
  {
    (rg: PredicterRow) => FlatMap(Filter(teams, TeamIdIs(g.homeTeamID)), HomeJoin(teams, g, pr, rg, startDate, endDate))
  }

  function PredictionJoin(teams: seq<TeamRow>, predicters: seq<PredicterRow>, g: GameRow, startDate: int, endDate: int): PredictionRow -> seq<GamePredictionRow>
  {
    (pr: PredictionRow) => FlatMap(Filter(predicters, PredicterKey(pr)), PredicterJoin(teams, g, pr, startDate, endDate))
  }

  function GameJoin(teams: seq<TeamRow>, preds: seq<PredictionRow>, predicters: seq<PredicterRow>, startDate: int, endDate: int): GameRow -> seq<GamePredictionRow>
  {
    (g: GameRow) => FlatMap(Filter(preds, PredictionKey(g)), PredictionJoin(teams, predicters, g, startDate, endDate))
  }

  /** `games_with_predictions_select(start_date, end_date)`: four INNER JOINs and the WHERE. */
  function GamesWithPredictionsSelect(games: seq<GameRow>, teams: seq<TeamRow>, preds: seq<PredictionRow>,
                                      predicters: seq<PredicterRow>, startDate: int, endDate: int): seq<GamePredictionRow>
  {
    FlatMap(games, GameJoin(teams, preds, predicters, startDate, endDate))
  }

  /** A joined tuple that the select keeps. */
  ghost predicate Witness(games: seq<GameRow>, teams: seq<TeamRow>, preds: seq<PredictionRow>, predicters: seq<PredicterRow>,
                          startDate: int, endDate: int, r: GamePredictionRow,
                          g: GameRow, pr: PredictionRow, rg: PredicterRow, home: TeamRow, away: TeamRow)
  {
    && g in games && pr in preds && pr.gameID == g.id
    && rg in predicters && rg.id == pr.predicterID
    && home in teams && home.id == g.homeTeamID && away in teams && away.id == g.awayTeamID
    && Selected(g, rg, startDate, endDate)
    && r == Project(g, pr, rg, home, away)
  }

  /** Soundness, one JOIN at a time: the tuple a selected row comes from. */
  lemma HomeJoinSound(teams: seq<TeamRow>, g: GameRow, pr: PredictionRow, rg: PredicterRow, startDate: int, endDate: int,
                      home: TeamRow, r: GamePredictionRow) returns (away: TeamRow)
    requires r in HomeJoin(teams, g, pr, rg, startDate, endDate)(home)
    ensures away in teams && away.id == g.awayTeamID && Selected(g, rg, startDate, endDate)
    ensures r == Project(g, pr, rg, home, away)
  {
    var ts := Filter(teams, TeamIdIs(g.awayTeamID));
    FlatMapMember(ts, AwayJoin(g, pr, rg, home, startDate, endDate), r);
    var i :| 0 <= i < |ts| && r in AwayJoin(g, pr, rg, home, startDate, endDate)(ts[i]);
    away := ts[i];
    FilterMember(teams, TeamIdIs(g.awayTeamID), away);
  }

  lemma GameJoinSound(teams: seq<TeamRow>, preds: seq<PredictionRow>, predicters: seq<PredicterRow>,
                      startDate: int, endDate: int, g: GameRow, r: GamePredictionRow)
    returns (pr: PredictionRow, rg: PredicterRow, home: TeamRow, away: TeamRow)
    requires r in GameJoin(teams, preds, predicters, startDate, endDate)(g)
    ensures pr in preds && pr.gameID == g.id && rg in predicters && rg.id == pr.predicterID
    ensures home in teams && home.id == g.homeTeamID && away in teams && away.id == g.awayTeamID
    ensures Selected(g, rg, startDate, endDate) && r == Project(g, pr, rg, home, away)
  {
    var ps := Filter(preds, PredictionKey(g));
    FlatMapMember(ps, PredictionJoin(teams, predicters, g, startDate, endDate), r);
    var i :| 0 <= i < |ps| && r in PredictionJoin(teams, predicters, g, startDate, endDate)(ps[i]);
    pr := ps[i];
    FilterMember(preds, PredictionKey(g), pr);
    var rs := Filter(predicters, PredicterKey(pr));
    FlatMapMember(rs, PredicterJoin(teams, g, pr, startDate, endDate), r);
    var j :| 0 <= j < |rs| && r in PredicterJoin(teams, g, pr, startDate, endDate)(rs[j]);
    rg := rs[j];
    FilterMember(predicters, PredicterKey(pr), rg);
    var hs := Filter(teams, TeamIdIs(g.homeTeamID));
    FlatMapMember(hs, HomeJoin(teams, g, pr, rg, startDate, endDate), r);
    var k :| 0 <= k < |hs| && r in HomeJoin(teams, g, pr, rg, startDate, endDate)(hs[k]);
    home := hs[k];
    FilterMember(teams, TeamIdIs(g.homeTeamID), home);
    away := HomeJoinSound(teams, g, pr, rg, startDate, endDate, home, r);
  }

  /** Every row of `games_with_predictions_select` is the projection of a game, one of its
      predictions, that prediction's active predicter and the game's two teams, for a game
      dated inside [start, end]. */
  lemma GamesWithPredictionsSound(games: seq<GameRow>, teams: seq<TeamRow>, preds: seq<PredictionRow>,
                                  predicters: seq<PredicterRow>, startDate: int, endDate: int, r: GamePredictionRow)
    requires r in GamesWithPredictionsSelect(games, teams, preds, predicters, startDate, endDate)
    ensures exists g, pr, rg, home, away :: Witness(games, teams, preds, predicters, startDate, endDate, r, g, pr, rg, home, away)
  {
    var f := GameJoin(teams, preds, predicters, startDate, endDate);
    FlatMapMember(games, f, r);
    var i :| 0 <= i < |games| && r in f(games[i]);
    var pr, rg, home, away := GameJoinSound(teams, preds, predicters, startDate, endDate, games[i], r);
    assert Witness(games, teams, preds, predicters, startDate, endDate, r, games[i], pr, rg, home, away);
  }

  /** Completeness, one JOIN at a time. */
  lemma HomeJoinComplete(teams: seq<TeamRow>, g: GameRow, pr: PredictionRow, rg: PredicterRow, startDate: int, endDate: int,
                         home: TeamRow, away: TeamRow)
    requires away in teams && away.id == g.awayTeamID && Selected(g, rg, startDate, endDate)
    ensures Project(g, pr, rg, home, away) in HomeJoin(teams, g, pr, rg, startDate, endDate)(home)
  {
    var ts := Filter(teams, TeamIdIs(g.awayTeamID));
    FilterMember(teams, TeamIdIs(g.awayTeamID), away);
    var i :| 0 <= i < |ts| && ts[i] == away;
    FlatMapMember(ts, AwayJoin(g, pr, rg, home, startDate, endDate), Project(g, pr, rg, home, away));
  }

  lemma GameJoinComplete(teams: seq<TeamRow>, preds: seq<PredictionRow>, predicters: seq<PredicterRow>,
                         startDate: int, endDate: int, g: GameRow, pr: PredictionRow, rg: PredicterRow, home: TeamRow, away: TeamRow)
    requires pr in preds && pr.gameID == g.id && rg in predicters && rg.id == pr.predicterID
    requires home in teams && home.id == g.homeTeamID && away in teams && away.id == g.awayTeamID
    requires Selected(g, rg, startDate, endDate)
    ensures Project(g, pr, rg, home, away) in GameJoin(teams, preds, predicters, startDate, endDate)(g)
  {
    var r := Project(g, pr, rg, home, away);
    HomeJoinComplete(teams, g, pr, rg, startDate, endDate, home, away);
    var hs := Filter(teams, TeamIdIs(g.homeTeamID));
    FilterMember(teams, TeamIdIs(g.homeTeamID), home);
    var k :| 0 <= k < |hs| && hs[k] == home;
    FlatMapMember(hs, HomeJoin(teams, g, pr, rg, startDate, endDate), r);
    var rs := Filter(predicters, PredicterKey(pr));
    FilterMember(predicters, PredicterKey(pr), rg);
    var j :| 0 <= j < |rs| && rs[j] == rg;
    FlatMapMember(rs, PredicterJoin(teams, g, pr, startDate, endDate), r);
    var ps := Filter(preds, PredictionKey(g));
    FilterMember(preds, PredictionKey(g), pr);
    var i :| 0 <= i < |ps| && ps[i] == pr;
    FlatMapMember(ps, PredictionJoin(teams, predicters, g, startDate, endDate), r);
  }

  /** Every game with a prediction by an active predicter, both teams listed and a date inside
      [start, end] appears in `games_with_predictions_select`, joined with that prediction. */
  lemma GamesWithPredictionsComplete(games: seq<GameRow>, teams: seq<TeamRow>, preds: seq<PredictionRow>,
                                     predicters: seq<PredicterRow>, startDate: int, endDate: int,
                                     g: GameRow, pr: PredictionRow, rg: PredicterRow, home: TeamRow, away: TeamRow)
    requires Witness(games, teams, preds, predicters, startDate, endDate, Project(g, pr, rg, home, away), g, pr, rg, home, away)
    ensures Project(g, pr, rg, home, away) in GamesWithPredictionsSelect(games, teams, preds, predicters, startDate, endDate)
  {
    GameJoinComplete(teams, preds, predicters, startDate, endDate, g, pr, rg, home, away);
    var i :| 0 <= i < |games| && games[i] == g;
    FlatMapMember(games, GameJoin(teams, preds, predicters, startDate, endDate), Project(g, pr, rg, home, away));
  }
}
