/** What the `games_history` view computes, stated directly: for a game and one of its two
    teams, the record of that team in the strictly earlier games of the same season. */
module ViewHistory {
  import opened Wrappers
  import opened Seqs
  import opened SqlNulls
  import opened ViewStatements

  /** What the views are taken under: `games.id` and `teams.id` are primary keys (table
      constraints), and no team plays itself (a property of the NHL data, which the tables do
      not enforce). */
  predicate ValidDb(games: seq<GameRow>, teams: seq<TeamRow>)
  {
    && (forall i, j :: 0 <= i < j < |games| ==> games[i].id != games[j].id)
    && (forall i :: 0 <= i < |games| ==> games[i].homeTeamID != games[i].awayTeamID)
    && (forall i, j :: 0 <= i < j < |teams| ==> teams[i].id != teams[j].id)
  }

  /** The earlier games of the same season that team `t` played, before game `g`. */
  function PriorGames(games: seq<GameRow>, g: GameRow, t: int): seq<GameRow>
  {
    Filter(games, EarlierSameSeasonMask(t, g))
  }

  /** Team `t` won game `o`: outcome 1 is a home win, 0 an away win. */
  predicate TeamWon(o: GameRow, t: int)
  {
    if t == o.homeTeamID then o.outcome == Some(1) else o.outcome == Some(0)
  }

  function WonMask(t: int): GameRow -> bool
  {
    (o: GameRow) => TeamWon(o, t)
  }

  /** The goals `t` scored in `o`, an unknown score read as 0. */
  function GoalsFor(t: int): GameRow -> int
  {
    (o: GameRow) => (if t == o.homeTeamID then o.homeTeamGoals else o.awayTeamGoals).GetOr(0)
  }

  /** The goals `t` conceded in `o`, an unknown score read as 0. */
  function GoalsAgainst(t: int): GameRow -> int
  {
    (o: GameRow) => (if t == o.homeTeamID then o.awayTeamGoals else o.homeTeamGoals).GetOr(0)
  }

  /** The points `t` was awarded for `o`, unknown read as 0. */
  function PointsFor(t: int): GameRow -> int
  {
    (o: GameRow) => (if t == o.homeTeamID then o.homeTeamPointsAwarded else o.awayTeamPointsAwarded).GetOr(0)
  }

  /** A per-game rate, 0 when there is no earlier game. */
  function Rate(total: int, n: nat): real
  {
    if n == 0 then 0.0 else total as real / n as real
  }

  /** The history of team `t` before game `g`, computed from its earlier games. */
  function ReferenceHistory(games: seq<GameRow>, g: GameRow, t: int): HistoryRow
  {
    var prior := PriorGames(games, g, t);
    var wins := Count(prior, WonMask(t));
    HistoryRow(g.id, t, Some(g.datePlayed), wins, |prior|, Rate(wins, |prior|),
               Rate(Sum(prior, GoalsFor(t)), |prior|), Rate(Sum(prior, GoalsAgainst(t)), |prior|),
               Sum(prior, PointsFor(t)))
  }

  // ---------------------------------------------------------------------------------------
  // Which groups exist

  /** The `games_per_team` row of game `o` seen from team `t`. */
  function PerTeamOf(o: GameRow, t: int): PerTeamRow
  {
    if t == o.homeTeamID then HomeRow(o) else AwayRow(o)
  }

  /** Every `games_per_team` row is a game seen from its home or its away team. */
  lemma PerTeamOrigin(games: seq<GameRow>, p: PerTeamRow)
    requires p in GamesPerTeam(games)
    ensures exists gm :: gm in games && p.gameID == gm.id && (p.teamID == gm.homeTeamID || p.teamID == gm.awayTeamID)
  {
    if p in HomeRows(games) {
      var i :| 0 <= i < |games| && HomeRows(games)[i] == p;
      assert games[i] in games;
    } else {
      assert p in AwayRows(games);
      var i :| 0 <= i < |games| && AwayRows(games)[i] == p;
      assert games[i] in games;
    }
  }

  /** A result row of `games_with_previous` carries the game and team of the
      `games_per_team` row it was built from. */
  lemma PrevRowsForKeys(games: seq<GameRow>, gpt: seq<PerTeamRow>, p: PerTeamRow, gm: GameRow, b: PrevRow)
    requires b in PrevRowsFor(games, gpt, p, gm)
    ensures b.gameID == p.gameID && b.teamID == p.teamID
  {
    var others := Filter(games, EarlierSameSeasonMask(p.teamID, gm));
    if others != [] {
      FlatMapMember(others, PairRowsOf(gpt, p, gm), b);
      var i :| 0 <= i < |others| && b in PairRowsOf(gpt, p, gm)(others[i]);
      var qs := Filter(gpt, PerTeamKey(others[i].id, p.teamID));
      if qs != [] {
        var j :| 0 <= j < |qs| && b == MakePrev(p, gm, Some(others[i]), Some(qs[j]));
      }
    }
  }

  lemma BlockKeys(games: seq<GameRow>, teams: seq<TeamRow>, gpt: seq<PerTeamRow>, p: PerTeamRow, b: PrevRow)
    requires b in Block(games, teams, gpt)(p)
    ensures b.gameID == p.gameID && b.teamID == p.teamID
    ensures exists tm :: tm in teams && tm.id == p.teamID
  {
    var gs := Filter(games, GameIdIs(p.gameID));
    FlatMapMember(gs, GameBlock(games, teams, gpt, p), b);
    var i :| 0 <= i < |gs| && b in GameBlock(games, teams, gpt, p)(gs[i]);
    var ts := Filter(teams, TeamIdIs(p.teamID));
    FlatMapMember(ts, TeamBlock(games, gpt, p, gs[i]), b);
    var j :| 0 <= j < |ts| && b in TeamBlock(games, gpt, p, gs[i])(ts[j]);
    PrevRowsForKeys(games, gpt, p, gs[i], b);
    FilterMember(teams, TeamIdIs(p.teamID), ts[j]);
  }

  lemma PrevRowsForNonEmpty(games: seq<GameRow>, gpt: seq<PerTeamRow>, p: PerTeamRow, gm: GameRow)
    ensures PrevRowsFor(games, gpt, p, gm) != []
  {
    var others := Filter(games, EarlierSameSeasonMask(p.teamID, gm));
    if others != [] {
      var y := PairRowsOf(gpt, p, gm)(others[0])[0];
      FlatMapMember(others, PairRowsOf(gpt, p, gm), y);
    }
  }

  /** A row of a present game, seen from a present team, yields a result row. */
  lemma BlockNonEmpty(games: seq<GameRow>, teams: seq<TeamRow>, gpt: seq<PerTeamRow>, p: PerTeamRow, gm: GameRow, tm: TeamRow)
    requires gm in games && gm.id == p.gameID
    requires tm in teams && tm.id == p.teamID
    ensures Block(games, teams, gpt)(p) != []
  {
    PrevRowsForNonEmpty(games, gpt, p, gm);
    var y := PrevRowsFor(games, gpt, p, gm)[0];
    var ts := Filter(teams, TeamIdIs(p.teamID));
    FilterMember(teams, TeamIdIs(p.teamID), tm);
    var j :| 0 <= j < |ts| && ts[j] == tm;
    FlatMapMember(ts, TeamBlock(games, gpt, p, gm), y);
    var gs := Filter(games, GameIdIs(p.gameID));
    FilterMember(games, GameIdIs(p.gameID), gm);
    var l :| 0 <= l < |gs| && gs[l] == gm;
    FlatMapMember(gs, GameBlock(games, teams, gpt, p), y);
  }

  lemma GroupPresentOnlyFor(games: seq<GameRow>, teams: seq<TeamRow>, gameId: int, teamId: int)
    requires GamesHistory(games, teams, gameId, teamId).Some?
    ensures exists gm :: gm in games && gm.id == gameId && (teamId == gm.homeTeamID || teamId == gm.awayTeamID)
    ensures exists tm :: tm in teams && tm.id == teamId
  {
    var gpt := GamesPerTeam(games);
    var gwp := GamesWithPrevious(games, teams);
    var key := GroupKey(gameId, teamId);
    var b := Filter(gwp, key)[0];
    FilterMember(gwp, key, b);
    FlatMapMember(gpt, Block(games, teams, gpt), b);
    var i :| 0 <= i < |gpt| && b in Block(games, teams, gpt)(gpt[i]);
    BlockKeys(games, teams, gpt, gpt[i], b);
    PerTeamOrigin(games, gpt[i]);
  }

  lemma GroupPresentFor(games: seq<GameRow>, teams: seq<TeamRow>, gm: GameRow, tm: TeamRow)
    requires gm in games && (tm.id == gm.homeTeamID || tm.id == gm.awayTeamID)
    requires tm in teams
    ensures GamesHistory(games, teams, gm.id, tm.id).Some?
  {
    var gpt := GamesPerTeam(games);
    var gwp := GamesWithPrevious(games, teams);
    var key := GroupKey(gm.id, tm.id);
    var k :| 0 <= k < |games| && games[k] == gm;
    var p := PerTeamOf(gm, tm.id);
    assert p == HomeRows(games)[k] || p == AwayRows(games)[k];
    assert p in gpt;
    BlockNonEmpty(games, teams, gpt, p, gm, tm);
    var y := Block(games, teams, gpt)(p)[0];
    var pi :| 0 <= pi < |gpt| && gpt[pi] == p;
    FlatMapMember(gpt, Block(games, teams, gpt), y);
    BlockKeys(games, teams, gpt, p, y);
    FilterMember(gwp, key, y);
  }

  /** A (game, team) group of `games_history` exists exactly when the game is in `games`, the
      team is one of its two teams, and the team is in `teams` (the INNER JOINs). */
  lemma GamesHistoryPresent(games: seq<GameRow>, teams: seq<TeamRow>, gameId: int, teamId: int)
    ensures GamesHistory(games, teams, gameId, teamId).Some? <==>
      && (exists gm :: gm in games && gm.id == gameId && (teamId == gm.homeTeamID || teamId == gm.awayTeamID))
      && (exists tm :: tm in teams && tm.id == teamId)
  {
    if GamesHistory(games, teams, gameId, teamId).Some? {
      GroupPresentOnlyFor(games, teams, gameId, teamId);
    }
    if && (exists gm :: gm in games && gm.id == gameId && (teamId == gm.homeTeamID || teamId == gm.awayTeamID))
       && (exists tm :: tm in teams && tm.id == teamId)
    {
      var gm :| gm in games && gm.id == gameId && (teamId == gm.homeTeamID || teamId == gm.awayTeamID);
      var tm :| tm in teams && tm.id == teamId;
      GroupPresentFor(games, teams, gm, tm);
    }
  }

  // ---------------------------------------------------------------------------------------
  // The contents of a group

  /** Under the primary keys, a game and one of its teams select exactly one row of
      `games_per_team`. */
  lemma PerTeamUnique(games: seq<GameRow>, teams: seq<TeamRow>, k: nat, t: int)
    requires ValidDb(games, teams)
    requires k < |games| && (t == games[k].homeTeamID || t == games[k].awayTeamID)
    ensures Filter(GamesPerTeam(games), PerTeamKey(games[k].id, t)) == [PerTeamOf(games[k], t)]
  {
    var key := PerTeamKey(games[k].id, t);
    var homes := HomeRows(games);
    var aways := AwayRows(games);
    FilterConcat(homes, aways, key);
    if t == games[k].homeTeamID {
      FilterUnique(homes, key, k);
      FilterDropsAll(aways, key);
    } else {
      FilterDropsAll(homes, key);
      FilterUnique(aways, key, k);
    }
  }

  lemma GameUnique(games: seq<GameRow>, teams: seq<TeamRow>, k: nat)
    requires ValidDb(games, teams) && k < |games|
    ensures Filter(games, GameIdIs(games[k].id)) == [games[k]]
  {
    FilterUnique(games, GameIdIs(games[k].id), k);
  }

  lemma TeamUnique(games: seq<GameRow>, teams: seq<TeamRow>, j: nat)
    requires ValidDb(games, teams) && j < |teams|
    ensures Filter(teams, TeamIdIs(teams[j].id)) == [teams[j]]
  {
    FilterUnique(teams, TeamIdIs(teams[j].id), j);
  }

  /** The result row for one earlier game `o`, joined with its own per-team row. */
  function PrevWith(p: PerTeamRow, g: GameRow, t: int): GameRow -> PrevRow
  {
    (o: GameRow) => MakePrev(p, g, Some(o), Some(PerTeamOf(o, t)))
  }

  /** Under the primary keys, the per-team row of a game joins that game and team once. */
  lemma BlockOfPerTeam(games: seq<GameRow>, teams: seq<TeamRow>, k: nat, t: int, j: nat)
    requires ValidDb(games, teams)
    requires k < |games| && (t == games[k].homeTeamID || t == games[k].awayTeamID)
    requires j < |teams| && teams[j].id == t
    ensures var g := games[k]; var gpt := GamesPerTeam(games); var p := PerTeamOf(g, t);
      Block(games, teams, gpt)(p) == PrevRowsFor(games, gpt, p, g)
  {
    var g := games[k];
    var gpt := GamesPerTeam(games);
    var p := PerTeamOf(g, t);
    assert p.gameID == g.id && p.teamID == t;
    GameUnique(games, teams, k);
    FlatMapOne(g, GameBlock(games, teams, gpt, p));
    TeamUnique(games, teams, j);
    FlatMapOne(teams[j], TeamBlock(games, gpt, p, g));
  }

  /** The group of (g, t) in `games_with_previous` is the LEFT JOINs of its one per-team row. */
  lemma GroupIsPrevRows(games: seq<GameRow>, teams: seq<TeamRow>, k: nat, t: int, j: nat)
    requires ValidDb(games, teams)
    requires k < |games| && (t == games[k].homeTeamID || t == games[k].awayTeamID)
    requires j < |teams| && teams[j].id == t
    ensures Filter(GamesWithPrevious(games, teams), GroupKey(games[k].id, t))
         == PrevRowsFor(games, GamesPerTeam(games), PerTeamOf(games[k], t), games[k])
  {
    var g := games[k];
    var gpt := GamesPerTeam(games);
    var p := PerTeamOf(g, t);
    var f := Block(games, teams, gpt);
    forall a, b | b in f(a)
      ensures GroupKey(g.id, t)(b) == PerTeamKey(g.id, t)(a)
    {
      BlockKeys(games, teams, gpt, a, b);
    }
    FilterFlatMap(gpt, f, GroupKey(g.id, t), PerTeamKey(g.id, t));
    PerTeamUnique(games, teams, k, t);
    FlatMapOne(p, f);
    BlockOfPerTeam(games, teams, k, t, j);
  }

  /** Each prior game meets exactly one per-team row of the team in the second LEFT JOIN. */
  lemma PriorRowsAreMapped(games: seq<GameRow>, teams: seq<TeamRow>, g: GameRow, t: int)
    requires ValidDb(games, teams)
    requires t == g.homeTeamID || t == g.awayTeamID
    ensures var gpt := GamesPerTeam(games);
      FlatMap(PriorGames(games, g, t), PairRowsOf(gpt, PerTeamOf(g, t), g))
        == Map(PriorGames(games, g, t), PrevWith(PerTeamOf(g, t), g, t))
  {
    var gpt := GamesPerTeam(games);
    var p := PerTeamOf(g, t);
    var prior := PriorGames(games, g, t);
    forall i | 0 <= i < |prior|
      ensures PairRowsOf(gpt, p, g)(prior[i]) == [PrevWith(p, g, t)(prior[i])]
    {
      var o := prior[i];
      FilterMember(games, EarlierSameSeasonMask(t, g), o);
      var k :| 0 <= k < |games| && games[k] == o;
      PerTeamUnique(games, teams, k, t);
    }
    FlatMapSingletons(prior, PairRowsOf(gpt, p, g), PrevWith(p, g, t));
  }

  /** The win sum and the win count over the mapped prior games. */
  lemma {:induction false} PriorWins(p: PerTeamRow, g: GameRow, t: int, prior: seq<GameRow>)
    ensures var rows := Map(prior, PrevWith(p, g, t));
      && SumOpt(rows, PrevWonCol()) == (if prior == [] then None else Some(Count(prior, WonMask(t))))
      && CountSome(rows, PrevWonCol()) == |prior|
  {
    if prior != [] {
      var rows := Map(prior, PrevWith(p, g, t));
      assert rows[1..] == Map(prior[1..], PrevWith(p, g, t));
      PriorWins(p, g, t, prior[1..]);
    }
  }

  /** The goal and point totals over the mapped prior games, NULL read as 0. */
  lemma {:induction false} PriorTotals(p: PerTeamRow, g: GameRow, t: int, prior: seq<GameRow>)
    ensures var rows := Map(prior, PrevWith(p, g, t));
      && SumOrZero(rows, PrevGoalsCol()) == Sum(prior, GoalsFor(t))
      && SumOrZero(rows, PrevOppGoalsCol()) == Sum(prior, GoalsAgainst(t))
      && SumOrZero(rows, PrevPointsCol()) == Sum(prior, PointsFor(t))
  {
    if prior != [] {
      var rows := Map(prior, PrevWith(p, g, t));
      assert rows[1..] == Map(prior[1..], PrevWith(p, g, t));
      PriorTotals(p, g, t, prior[1..]);
    }
  }

  /** `MAX(datePlayed)` over the mapped prior games is the game's own date. */
  lemma {:induction false} PriorDates(p: PerTeamRow, g: GameRow, t: int, prior: seq<GameRow>)
    ensures MaxOpt(Map(prior, PrevWith(p, g, t)), DateCol()) == (if prior == [] then None else Some(g.datePlayed))
  {
    if prior != [] {
      var rows := Map(prior, PrevWith(p, g, t));
      assert rows[1..] == Map(prior[1..], PrevWith(p, g, t));
      PriorDates(p, g, t, prior[1..]);
    }
  }

  /** The aggregates of `games_history` over the mapped prior games. */
  lemma PriorAggregates(p: PerTeamRow, g: GameRow, t: int, prior: seq<GameRow>)
    ensures var rows := Map(prior, PrevWith(p, g, t));
      && SumOpt(rows, PrevWonCol()) == (if prior == [] then None else Some(Count(prior, WonMask(t))))
      && CountSome(rows, PrevWonCol()) == |prior|
      && SumOrZero(rows, PrevGoalsCol()) == Sum(prior, GoalsFor(t))
      && SumOrZero(rows, PrevOppGoalsCol()) == Sum(prior, GoalsAgainst(t))
      && SumOrZero(rows, PrevPointsCol()) == Sum(prior, PointsFor(t))
      && MaxOpt(rows, DateCol()) == (if prior == [] then None else Some(g.datePlayed))
  {
    PriorWins(p, g, t, prior);
    PriorTotals(p, g, t, prior);
    PriorDates(p, g, t, prior);
  }

  /** The result rows of the group of (g, t): one row of NULLs, or one row per prior game. */
  function GroupRows(games: seq<GameRow>, g: GameRow, t: int): seq<PrevRow>
  {
    var prior := PriorGames(games, g, t);
    if prior == [] then [MakePrev(PerTeamOf(g, t), g, None, None)]
    else Map(prior, PrevWith(PerTeamOf(g, t), g, t))
  }

  lemma PrevRowsForIsGroupRows(games: seq<GameRow>, teams: seq<TeamRow>, g: GameRow, t: int)
    requires ValidDb(games, teams)
    requires t == g.homeTeamID || t == g.awayTeamID
    ensures PrevRowsFor(games, GamesPerTeam(games), PerTeamOf(g, t), g) == GroupRows(games, g, t)
  {
    assert PerTeamOf(g, t).teamID == t;
    if PriorGames(games, g, t) != [] {
      PriorRowsAreMapped(games, teams, g, t);
    }
  }

  lemma AggregateIsReference(games: seq<GameRow>, g: GameRow, t: int)
    ensures Aggregate(g.id, t, GroupRows(games, g, t)) == ReferenceHistory(games, g, t)
  {
    var prior := PriorGames(games, g, t);
    var rows := GroupRows(games, g, t);
    if prior != [] {
      PriorAggregates(PerTeamOf(g, t), g, t, prior);
      IfNullRate(rows, PrevGoalsCol());
      IfNullRate(rows, PrevOppGoalsCol());
      IfNullSum(rows, PrevPointsCol());
    } else {
      assert rows[1..] == [];
      assert SumOpt(rows, PrevWonCol()) == None;
      assert SumOpt(rows, PrevGoalsCol()) == None;
      assert SumOpt(rows, PrevOppGoalsCol()) == None;
      assert SumOpt(rows, PrevPointsCol()) == None;
      assert MaxOpt(rows, DateCol()) == Some(g.datePlayed);
      assert CountSome(rows, PrevWonCol()) == 0;
      var r := ReferenceHistory(games, g, t);
      assert r.prevNum == 0 && r.prevWonNum == 0 && r.pointsToDate == 0;
      assert r.prevWonPercentage == 0.0 && r.prevGoalsPerGame == 0.0 && r.prevOppGoalsPerGame == 0.0;
    }
  }

  /** `games_history` for a game and one of its teams is the team's record in the strictly
      earlier games of the same season: wins, games, win rate, goal rates and points. */
  lemma GamesHistoryIsReference(games: seq<GameRow>, teams: seq<TeamRow>, g: GameRow, t: int)
    requires ValidDb(games, teams)
    requires g in games && (t == g.homeTeamID || t == g.awayTeamID)
    requires exists tm :: tm in teams && tm.id == t
    ensures GamesHistory(games, teams, g.id, t) == Some(ReferenceHistory(games, g, t))
  {
    var k :| 0 <= k < |games| && games[k] == g;
    var tm :| tm in teams && tm.id == t;
    var j :| 0 <= j < |teams| && teams[j] == tm;
    GroupIsPrevRows(games, teams, k, t, j);
    PrevRowsForIsGroupRows(games, teams, g, t);
    AggregateIsReference(games, g, t);
  }
}
