/** The four SQL views of `sql/view_statements.py`, as functions over the rows of the `games`
    and `teams` tables, and `create_view_statement`. SQL NULL is `None`; a join is a nested
    `FlatMap` over the joined tables in table order; `UNION ALL` is concatenation. A `GROUP BY`
    view is given as a lookup of one group by its key, which is how the feature select reads it. */
module ViewStatements {
  import opened Wrappers
  import opened Seqs
  import opened SqlNulls

  /** A row of `games`. Dates are day numbers. The view text also reads the two
      points-awarded columns that `insert_game` writes. */
  datatype GameRow = GameRow(
    id: int,
    apiID: int,
    seasonID: int,
    homeTeamID: int,
    awayTeamID: int,
    datePlayed: int,
    homeTeamGoals: Option<int>,
    awayTeamGoals: Option<int>,
    lastPeriodTypeID: Option<string>,
    outcome: Option<int>,
    inOT: Option<int>,
    homeTeamPointsAwarded: Option<int>,
    awayTeamPointsAwarded: Option<int>)

  /** A row of `teams`. */
  datatype TeamRow = TeamRow(
    id: int,
    apiID: Option<int>,
    name: string,
    nameAbbrev: string,
    conferenceAbbrev: string,
    divisionAbbrev: string)

  // ---------------------------------------------------------------------------------------
  // games_per_team

  /** A row of `games_per_team`: one game seen from one team. */
  datatype PerTeamRow = PerTeamRow(
    gameID: int,
    teamID: int,
    oppTeamID: int,
    won: int,
    inOT: int,
    goals: Option<int>,
    pointsAwarded: Option<int>,
    oppGoals: Option<int>,
    oppPointsAwarded: Option<int>)

  /** `CASE outcome WHEN v THEN 1 ELSE 0 END`: a NULL outcome matches no WHEN. */
  function CaseOutcome(outcome: Option<int>, v: int): (r: int)
    ensures r == 1 <==> outcome == Some(v)
    ensures r == 0 || r == 1
  {
    if outcome == Some(v) then 1 else 0
  }

  /** `CASE WHEN lastPeriodTypeID != 'REG' THEN 1 ELSE 0 END`: a NULL comparison is not true,
      so NULL falls to the ELSE branch. */
  function OvertimeFlag(lastPeriod: Option<string>): (r: int)
    ensures r == 1 <==> lastPeriod.Some? && lastPeriod.value != "REG"
    ensures r == 0 || r == 1
  {
    if lastPeriod.Some? && lastPeriod.value != "REG" then 1 else 0
  }

  /** The first SELECT of `games_per_team`: the game seen from the home team. */
  function HomeRow(g: GameRow): PerTeamRow
  {
    PerTeamRow(g.id, g.homeTeamID, g.awayTeamID, CaseOutcome(g.outcome, 1),
               OvertimeFlag(g.lastPeriodTypeID), g.homeTeamGoals, g.homeTeamPointsAwarded,
               g.awayTeamGoals, g.awayTeamPointsAwarded)
  }

  /** The second SELECT of `games_per_team`: the game seen from the away team. */
  function AwayRow(g: GameRow): PerTeamRow
  {
    PerTeamRow(g.id, g.awayTeamID, g.homeTeamID, CaseOutcome(g.outcome, 0),
               OvertimeFlag(g.lastPeriodTypeID), g.awayTeamGoals, g.awayTeamPointsAwarded,
               g.homeTeamGoals, g.homeTeamPointsAwarded)
  }

  function HomeRows(games: seq<GameRow>): seq<PerTeamRow>
  {
    seq(|games|, i requires 0 <= i < |games| => HomeRow(games[i]))
  }

  function AwayRows(games: seq<GameRow>): seq<PerTeamRow>
  {
    seq(|games|, i requires 0 <= i < |games| => AwayRow(games[i]))
  }

  /** `games_per_team`: the home rows of all games, UNION ALL the away rows. */
  function GamesPerTeam(games: seq<GameRow>): seq<PerTeamRow>
  {
    HomeRows(games) + AwayRows(games)
  }

  // ---------------------------------------------------------------------------------------
  // games_with_previous

  /** A row of `games_with_previous`: a (game, team) pair and one earlier game of that team. */
  datatype PrevRow = PrevRow(
    gameID: int,
    won: int,
    inOT: int,
    teamID: int,
    oppTeamID: int,
    datePlayed: int,
    seasonID: int,
    prevGameID: Option<int>,
    prevDatePlayed: Option<int>,
    prevOppTeamID: Option<int>,
    prevWon: Option<int>,
    prevInOT: Option<int>,
    prevGoals: Option<int>,
    prevOppGoals: Option<int>,
    prevPointsAwarded: Option<int>)

  function GameIdIs(id: int): GameRow -> bool
  {
    (g: GameRow) => g.id == id
  }

  function TeamIdIs(id: int): TeamRow -> bool
  {
    (t: TeamRow) => t.id == id
  }

  function PerTeamKey(gameId: int, teamId: int): PerTeamRow -> bool
  {
    (q: PerTeamRow) => q.gameID == gameId && q.teamID == teamId
  }

  /** The first LEFT JOIN condition: `other` involves the team, is strictly earlier than `gm`,
      and is in the same season. */
  predicate EarlierSameSeason(teamId: int, gm: GameRow, other: GameRow)
  {
    (teamId == other.homeTeamID || teamId == other.awayTeamID)
    && gm.datePlayed > other.datePlayed && gm.seasonID == other.seasonID
  }

  function EarlierSameSeasonMask(teamId: int, gm: GameRow): GameRow -> bool
  {
    (o: GameRow) => EarlierSameSeason(teamId, gm, o)
  }

  /** A result row: the per-team row `p`, its game `gm`, the earlier game (if any) and that
      game's per-team row for the same team (if any). */
  function MakePrev(p: PerTeamRow, gm: GameRow, other: Option<GameRow>, q: Option<PerTeamRow>): PrevRow
  {
    PrevRow(p.gameID, p.won, p.inOT, p.teamID, p.oppTeamID, gm.datePlayed, gm.seasonID,
            if other.Some? then Some(other.value.id) else None,
            if other.Some? then Some(other.value.datePlayed) else None,
            if q.Some? then Some(q.value.oppTeamID) else None,
            if q.Some? then Some(q.value.won) else None,
            if q.Some? then Some(q.value.inOT) else None,
            if q.Some? then q.value.goals else None,
            if q.Some? then q.value.oppGoals else None,
            if q.Some? then q.value.pointsAwarded else None)
  }

  /** The second LEFT JOIN, for one earlier game: its per-team rows for the same team. */
  function PairRows(gpt: seq<PerTeamRow>, p: PerTeamRow, gm: GameRow, other: GameRow): seq<PrevRow>
  {
    var qs := Filter(gpt, PerTeamKey(other.id, p.teamID));
    if qs == [] then [MakePrev(p, gm, Some(other), None)]
    else seq(|qs|, i requires 0 <= i < |qs| => MakePrev(p, gm, Some(other), Some(qs[i])))
  }

  function PairRowsOf(gpt: seq<PerTeamRow>, p: PerTeamRow, gm: GameRow): GameRow -> seq<PrevRow>
  {
    (o: GameRow) => PairRows(gpt, p, gm, o)
  }

  /** Both LEFT JOINs for one (per-team row, game) pair; with no earlier game, one row with
      NULL in every prev column. */
  function PrevRowsFor(games: seq<GameRow>, gpt: seq<PerTeamRow>, p: PerTeamRow, gm: GameRow): seq<PrevRow>
  {
    var others := Filter(games, EarlierSameSeasonMask(p.teamID, gm));
    if others == [] then [MakePrev(p, gm, None, None)]
    else FlatMap(others, PairRowsOf(gpt, p, gm))
  }

  /** INNER JOIN teams, then the LEFT JOINs. */
  function TeamBlock(games: seq<GameRow>, gpt: seq<PerTeamRow>, p: PerTeamRow, gm: GameRow): TeamRow -> seq<PrevRow>
  {
    (t: TeamRow) => PrevRowsFor(games, gpt, p, gm)
  }

  /** INNER JOIN games on the game id, then the rest. */
  function GameBlock(games: seq<GameRow>, teams: seq<TeamRow>, gpt: seq<PerTeamRow>, p: PerTeamRow): GameRow -> seq<PrevRow>
  {
    (gm: GameRow) => FlatMap(Filter(teams, TeamIdIs(p.teamID)), TeamBlock(games, gpt, p, gm))
  }

  /** All result rows produced by one row of `games_per_team`. */
  function Block(games: seq<GameRow>, teams: seq<TeamRow>, gpt: seq<PerTeamRow>): PerTeamRow -> seq<PrevRow>
  {
    (p: PerTeamRow) => FlatMap(Filter(games, GameIdIs(p.gameID)), GameBlock(games, teams, gpt, p))
  }

  /** `games_with_previous`. */
  function GamesWithPrevious(games: seq<GameRow>, teams: seq<TeamRow>): seq<PrevRow>
  {
    var gpt := GamesPerTeam(games);
    FlatMap(gpt, Block(games, teams, gpt))
  }

  // ---------------------------------------------------------------------------------------
  // games_history

  /** A row of `games_history`. */
  datatype HistoryRow = HistoryRow(
    gameID: int,
    teamID: int,
    datePlayed: Option<int>,
    prevWonNum: int,
    prevNum: nat,
    prevWonPercentage: real,
    prevGoalsPerGame: real,
    prevOppGoalsPerGame: real,
    pointsToDate: int)

  function GroupKey(gameId: int, teamId: int): PrevRow -> bool
  {
    (r: PrevRow) => r.gameID == gameId && r.teamID == teamId
  }

  function DateCol(): PrevRow -> Option<int>
  {
    (r: PrevRow) => Some(r.datePlayed)
  }

  function PrevWonCol(): PrevRow -> Option<int>
  {
    (r: PrevRow) => r.prevWon
  }

  function PrevGoalsCol(): PrevRow -> Option<int>
  {
    (r: PrevRow) => r.prevGoals
  }

  function PrevOppGoalsCol(): PrevRow -> Option<int>
  {
    (r: PrevRow) => r.prevOppGoals
  }

  function PrevPointsCol(): PrevRow -> Option<int>
  {
    (r: PrevRow) => r.prevPointsAwarded
  }

  /** The aggregate SELECT list of `games_history` over one non-empty group. The null
      function (IFNULL or COALESCE) is `GetOr`; `/ COUNT(*)` divides by the group size. */
  function Aggregate(gameId: int, teamId: int, rows: seq<PrevRow>): HistoryRow
    requires rows != []
  {
    HistoryRow(
      gameId, teamId,
      MaxOpt(rows, DateCol()),
      SumOpt(rows, PrevWonCol()).GetOr(0),
      CountSome(rows, PrevWonCol()),
      DivOpt(SumOpt(rows, PrevWonCol()), |rows|).GetOr(0.0),
      DivOpt(SumOpt(rows, PrevGoalsCol()), |rows|).GetOr(0.0),
      DivOpt(SumOpt(rows, PrevOppGoalsCol()), |rows|).GetOr(0.0),
      SumOpt(rows, PrevPointsCol()).GetOr(0))
  }

  /** The `games_history` row of the group (gameId, teamId), or None when that group is empty
      (no such row in the view). */
  function GamesHistory(games: seq<GameRow>, teams: seq<TeamRow>, gameId: int, teamId: int): Option<HistoryRow>
  {
    var rows := Filter(GamesWithPrevious(games, teams), GroupKey(gameId, teamId));
    if rows == [] then None else Some(Aggregate(gameId, teamId, rows))
  }

  // ---------------------------------------------------------------------------------------
  // games_prev_same_opp

  /** A row of `games_prev_same_opp`. */
  datatype PrevSameOppRow = PrevSameOppRow(
    gameID: int,
    prevGameID: Option<int>,
    prevOutcome: Option<int>,
    prevInOT: Option<int>)

  /** `WHERE oppTeamID = prevOppTeamID` within one `gameID` group; NULL never matches. */
  function SameOppCandidate(gameId: int): PrevRow -> bool
  {
    (r: PrevRow) => r.gameID == gameId && r.prevOppTeamID == Some(r.oppTeamID)
  }

  function TeamCol(): PrevRow -> Option<int>
  {
    (r: PrevRow) => Some(r.teamID)
  }

  function PrevDateCol(): PrevRow -> Option<int>
  {
    (r: PrevRow) => r.prevDatePlayed
  }

  /** The INNER JOIN of `prevMatchup` with `gwp2` on gameID, prevDatePlayed and teamID;
      an equality with NULL is not true. */
  function MatchupKey(gameId: int, teamId: Option<int>, prevDate: Option<int>): PrevRow -> bool
  {
    (r: PrevRow) => r.gameID == gameId && teamId == Some(r.teamID)
                    && r.prevDatePlayed.Some? && r.prevDatePlayed == prevDate
  }

  /** LEFT JOIN games on the previous game's id: its raw `outcome` and `inOT` columns. */
  function PrevGameJoin(games: seq<GameRow>, gameId: int): PrevRow -> seq<PrevSameOppRow>
  {
    (r: PrevRow) =>
      var gs := if r.prevGameID.None? then [] else Filter(games, GameIdIs(r.prevGameID.value));
      if gs == [] then [PrevSameOppRow(gameId, r.prevGameID, None, None)]
      else seq(|gs|, i requires 0 <= i < |gs| => PrevSameOppRow(gameId, r.prevGameID, gs[i].outcome, gs[i].inOT))
  }

  /** The rows of `games_prev_same_opp` for one game: the subquery takes, over the game's
      candidate rows, MAX(teamID) and MAX(prevDatePlayed) separately, then joins back. */
  function GamesPrevSameOpp(games: seq<GameRow>, teams: seq<TeamRow>, gameId: int): seq<PrevSameOppRow>
  {
    var gwp := GamesWithPrevious(games, teams);
    var candidates := Filter(gwp, SameOppCandidate(gameId));
    if candidates == [] then []
    else
      var maxTeam := MaxOpt(candidates, TeamCol());
      var maxDate := MaxOpt(candidates, PrevDateCol());
      FlatMap(Filter(gwp, MatchupKey(gameId, maxTeam, maxDate)), PrevGameJoin(games, gameId))
  }

  // ---------------------------------------------------------------------------------------
  // create_view_statement

  /** A piece of a view's SQL text: literal text, or the `{null_func}` placeholder. */
  datatype Segment = Text(text: string) | NullFuncSlot

  /** Creating a view whose name has no SQL text: `stmt += None` raises TypeError. */
  datatype ViewError = UnknownView(name: string)

  /** The SQL text of a template: the placeholder becomes `nullFunc`, as `str.format` does. */
  function Render(t: seq<Segment>, nullFunc: string): string
  {
    if t == [] then []
    else (match t[0] case Text(s) => s case NullFuncSlot => nullFunc) + Render(t[1..], nullFunc)
  }

  function CreatePrefix(viewName: string, dialect: string): string
  {
    if dialect == "postgresql" then "\n    CREATE OR REPLACE VIEW " + viewName
    else "\n    CREATE VIEW IF NOT EXISTS " + viewName
  }

  /** `create_view_statement(view_name, dialect)` over the table of view texts `suffixes`.
      Only the `games_history` text is formatted; every other text is used as written, so
      a placeholder in it would stay the literal "{null_func}". */
  function CreateViewStatement(suffixes: map<string, seq<Segment>>, viewName: string, dialect: string): (r: Result<string, ViewError>)
    ensures r.Err? <==> viewName !in suffixes
  {
    if viewName !in suffixes then Err(UnknownView(viewName))
    else
      var suffix := suffixes[viewName];
      var text := if viewName == "games_history"
                  then Render(suffix, if dialect == "postgresql" then "COALESCE" else "IFNULL")
                  else Render(suffix, "{null_func}");
      Ok(CreatePrefix(viewName, dialect) + text)
  }

  // ---------------------------------------------------------------------------------------
  // Properties

  /** Each game becomes exactly two per-team rows: the home row at its own position, the
      away row `|games|` positions later. */
  lemma GamesPerTeamExpands(games: seq<GameRow>)
    ensures |GamesPerTeam(games)| == 2 * |games|
    ensures forall i :: 0 <= i < |games| ==>
      && GamesPerTeam(games)[i] == HomeRow(games[i])
      && GamesPerTeam(games)[|games| + i] == AwayRow(games[i])
  {
  }

  /** The away row mirrors the home row: team and opponent, goals and points swap sides,
      the overtime flag is shared. */
  lemma PerTeamMirror(g: GameRow)
    ensures HomeRow(g).teamID == g.homeTeamID && HomeRow(g).oppTeamID == g.awayTeamID
    ensures HomeRow(g).goals == g.homeTeamGoals && HomeRow(g).oppGoals == g.awayTeamGoals
    ensures AwayRow(g).teamID == HomeRow(g).oppTeamID && AwayRow(g).oppTeamID == HomeRow(g).teamID
    ensures AwayRow(g).goals == HomeRow(g).oppGoals && AwayRow(g).oppGoals == HomeRow(g).goals
    ensures AwayRow(g).pointsAwarded == HomeRow(g).oppPointsAwarded
    ensures AwayRow(g).oppPointsAwarded == HomeRow(g).pointsAwarded
    ensures AwayRow(g).inOT == HomeRow(g).inOT
  {
  }

  /** `won`: the home row wins on outcome 1, the away row on outcome 0; for those outcomes
      exactly one row of the pair has won = 1, for NULL or any other outcome neither does. */
  lemma WonRows(g: GameRow)
    ensures HomeRow(g).won == 1 <==> g.outcome == Some(1)
    ensures AwayRow(g).won == 1 <==> g.outcome == Some(0)
    ensures g.outcome == Some(0) || g.outcome == Some(1) ==> HomeRow(g).won + AwayRow(g).won == 1
    ensures !(g.outcome == Some(0) || g.outcome == Some(1)) ==> HomeRow(g).won == 0 && AwayRow(g).won == 0
  {
  }

  /** `inOT` is 1 exactly for a known last period other than 'REG'; NULL gives 0. */
  lemma InOTRows(g: GameRow)
    ensures HomeRow(g).inOT == 1 <==> g.lastPeriodTypeID.Some? && g.lastPeriodTypeID.value != "REG"
    ensures g.lastPeriodTypeID.None? ==> HomeRow(g).inOT == 0 && AwayRow(g).inOT == 0
  {
  }

  /** A template without the placeholder renders the same whatever the null function. */
  lemma {:induction false} RenderWithoutSlot(t: seq<Segment>, a: string, b: string)
    requires NullFuncSlot !in t
    ensures Render(t, a) == Render(t, b)
  {
    if t != [] {
      assert t[0] != NullFuncSlot;
      assert NullFuncSlot !in t[1..];
      RenderWithoutSlot(t[1..], a, b);
    }
  }

  /** Rendering a template with a placeholder writes the null function into the text. */
  lemma RenderFillsSlot(t: seq<Segment>, nullFunc: string)
    requires NullFuncSlot in t
    ensures exists i, j :: 0 <= i <= j <= |Render(t, nullFunc)| && Render(t, nullFunc)[i..j] == nullFunc
  {
    var i := RenderSlotAt(t, nullFunc);
    assert Render(t, nullFunc)[i..i + |nullFunc|] == nullFunc;
  }

  /** Where the first placeholder's text lands in the rendered template. */
  lemma {:induction false} RenderSlotAt(t: seq<Segment>, nullFunc: string) returns (i: nat)
    requires NullFuncSlot in t
    ensures i + |nullFunc| <= |Render(t, nullFunc)| && Render(t, nullFunc)[i..i + |nullFunc|] == nullFunc
  {
    var r := Render(t, nullFunc);
    if t[0] == NullFuncSlot {
      i := 0;
      assert r == nullFunc + Render(t[1..], nullFunc);
      assert r[0..|nullFunc|] == nullFunc;
    } else {
      assert NullFuncSlot in t[1..];
      var k := RenderSlotAt(t[1..], nullFunc);
      var rest := Render(t[1..], nullFunc);
      assert r == t[0].text + rest;
      i := |t[0].text| + k;
      assert r[i..i + |nullFunc|] == rest[k..k + |nullFunc|];
    }
  }

  /** `create_view_statement`: PostgreSQL gets CREATE OR REPLACE, every other dialect
      CREATE VIEW IF NOT EXISTS; the `games_history` text gets COALESCE on PostgreSQL and
      IFNULL elsewhere; every other view's text is the same for all dialects. */
  lemma CreateViewStatementDialects(suffixes: map<string, seq<Segment>>, viewName: string, dialect: string)
    requires viewName in suffixes
    ensures var r := CreateViewStatement(suffixes, viewName, dialect);
      var prefix := if dialect == "postgresql" then "\n    CREATE OR REPLACE VIEW " else "\n    CREATE VIEW IF NOT EXISTS ";
      && r.Ok?
      && |prefix + viewName| <= |r.value| && r.value[..|prefix + viewName|] == prefix + viewName
      && (viewName == "games_history" ==>
            r.value[|prefix + viewName|..] == Render(suffixes[viewName], if dialect == "postgresql" then "COALESCE" else "IFNULL"))
      && (viewName != "games_history" ==>
            r.value[|prefix + viewName|..] == CreateViewStatement(suffixes, viewName, "sqlite").value[|"\n    CREATE VIEW IF NOT EXISTS " + viewName|..])
  {
    var r := CreateViewStatement(suffixes, viewName, dialect);
    var prefix := CreatePrefix(viewName, dialect);
    assert r.value == prefix + r.value[|prefix|..];
  }
}
