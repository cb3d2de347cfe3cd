/** `SQLHandler` of `sql_handler.py`: the team-id cache, the `ensure_*` inserts, inserting and
    updating games, loading the games files, and the prediction and training bookkeeping kept
    through `upsert`. The `teams`, `seasons` and `games` tables are sequences of rows; the
    three bookkeeping tables are `SqlHelpers.Table` objects. Dates are day numbers; parsing a
    date string is the oracle `dayOf`, and `today_date` is the constant `today`. */
module SqlHandler {
  import opened Wrappers
  import opened Seqs
  import opened Utils
  import opened SqlHelpers
  import Sport
  import ViewStatements

  type TeamRow = ViewStatements.TeamRow

  /** A row of `seasons`. */
  datatype SeasonRow = SeasonRow(id: int, apiID: int, startYear: int, endYear: int)

  /** A row of `games` as `insert_game` writes it. The fields read from the games file keep
      their text. */
  datatype GameRecord = GameRecord(
    id: int,
    apiID: string,
    seasonID: int,
    homeTeamID: int,
    awayTeamID: int,
    datePlayed: int,
    dayOfYrPlayed: string,
    yrPlayed: string,
    timePlayed: string,
    homeTeamGoals: string,
    awayTeamGoals: string,
    gameTypeID: string,
    lastPeriodTypeID: string,
    outcome: Option<int>,
    inOT: Option<int>,
    homeTeamPointsAwarded: Option<int>,
    awayTeamPointsAwarded: Option<int>,
    recordCreated: int)

  /** The three tables the game loading reads and writes. */
  datatype Db = Db(teams: seq<TeamRow>, seasons: seq<SeasonRow>, games: seq<GameRecord>)

  datatype StoreError =
    | ValueError(text: string)       // `int(...)` of a string that is not an integer
    | IndexError(fieldCount: nat)    // a games-file line with too few fields
    | AttributeError(name: string)   // `getattr` of an attribute a Game does not have

  // ---------------------------------------------------------------------------------------
  // Lookups

  /** Python `int(s)` on a string without surrounding blanks: an optional sign and decimal
      digits. */
  function ParseInt(s: string): (r: Option<int>)
    ensures AllDigits(s) && s != [] ==> r == Some(DigitsValue(s))
    ensures r.Some? ==> s != [] && (AllDigits(s) || ((s[0] == '-' || s[0] == '+') && |s| >= 2 && AllDigits(s[1..])))
  {
    if s != [] && AllDigits(s) then Some(DigitsValue(s))
    else if |s| >= 2 && s[0] == '-' && AllDigits(s[1..]) then Some(0 - DigitsValue(s[1..]))
    else if |s| >= 2 && s[0] == '+' && AllDigits(s[1..]) then Some(DigitsValue(s[1..]))
    else None
  }

  /** `int(str(n)) == n`. */
  lemma ParseIntString(n: int)
    ensures ParseInt(IntToString(n)) == Some(n)
  {
    var m: nat := if n < 0 then -n else n;
    var digits := NatToString(m);
    NatToStringValue(m);
    if n < 0 {
      assert IntToString(n) == "-" + digits;
      ParseIntNegative(digits);
    } else {
      assert IntToString(n) == digits;
      assert ParseInt(digits) == Some(DigitsValue(digits));
    }
  }

  /** A minus sign before a digit string reads as the negated number. */
  lemma ParseIntNegative(digits: string)
    requires digits != [] && AllDigits(digits)
    ensures ParseInt("-" + digits) == Some(0 - DigitsValue(digits))
  {
    var s := "-" + digits;
    assert s[1..] == digits;
    assert !IsDigit(s[0]);
  }

  /** The largest id plus one, 1 for none: the id SQLite gives a new row. */
  function NextRowId(ids: seq<int>): (n: int)
    ensures n >= 1
    ensures forall i :: 0 <= i < |ids| ==> ids[i] < n
  {
    if ids == [] then 1
    else
      var rest := NextRowId(ids[1..]);
      if ids[0] >= rest then ids[0] + 1 else rest
  }

  function SeasonIds(seasons: seq<SeasonRow>): seq<int>
  {
    Map(seasons, (s: SeasonRow) => s.id)
  }

  function TeamIds(teams: seq<TeamRow>): seq<int>
  {
    Map(teams, (t: TeamRow) => t.id)
  }

  /** `SELECT id FROM teams WHERE nameAbbrev = abbrev`, first row. */
  function TeamIdOf(teams: seq<TeamRow>, abbrev: string): (r: Option<int>)
    ensures r.None? <==> forall i :: 0 <= i < |teams| ==> teams[i].nameAbbrev != abbrev
    ensures r.Some? ==> exists i :: 0 <= i < |teams| && teams[i].nameAbbrev == abbrev && teams[i].id == r.value
  {
    if teams == [] then None
    else if teams[0].nameAbbrev == abbrev then Some(teams[0].id)
    else
      var r := TeamIdOf(teams[1..], abbrev);
      assert forall i :: 1 <= i < |teams| ==> teams[i] == teams[1..][i - 1];
      r
  }

  /** Appending a row does not change the answer for an abbreviation already present. */
  lemma {:induction false} TeamIdOfAppend(teams: seq<TeamRow>, t: TeamRow, abbrev: string)
    ensures TeamIdOf(teams + [t], abbrev) == (if TeamIdOf(teams, abbrev).Some? then TeamIdOf(teams, abbrev)
                                              else if t.nameAbbrev == abbrev then Some(t.id) else None)
  {
    if teams != [] {
      assert (teams + [t])[1..] == teams[1..] + [t];
      TeamIdOfAppend(teams[1..], t, abbrev);
    }
  }

  /** `SELECT id FROM seasons WHERE apiID = apiId`, first row. */
  function SeasonIdOf(seasons: seq<SeasonRow>, apiId: int): (r: Option<int>)
    ensures r.None? <==> forall i :: 0 <= i < |seasons| ==> seasons[i].apiID != apiId
    ensures r.Some? ==> exists i :: 0 <= i < |seasons| && seasons[i].apiID == apiId && seasons[i].id == r.value
  {
    if seasons == [] then None
    else if seasons[0].apiID == apiId then Some(seasons[0].id)
    else
      var r := SeasonIdOf(seasons[1..], apiId);
      assert forall i :: 1 <= i < |seasons| ==> seasons[i] == seasons[1..][i - 1];
      r
  }

  /** `check_game_exists`: the stored outcome of the first game with that api id, None when
      there is no such game. A returned row is a non-empty tuple, so it is always truthy,
      even when its outcome is NULL. */
  function StoredOutcome(games: seq<GameRecord>, apiId: string): (r: Option<Option<int>>)
    ensures r.None? <==> forall i :: 0 <= i < |games| ==> games[i].apiID != apiId
    ensures r.Some? ==> exists i :: 0 <= i < |games| && games[i].apiID == apiId && games[i].outcome == r.value
  {
    if games == [] then None
    else if games[0].apiID == apiId then Some(games[0].outcome)
    else
      var r := StoredOutcome(games[1..], apiId);
      assert forall i :: 1 <= i < |games| ==> games[i] == games[1..][i - 1];
      r
  }

  // ---------------------------------------------------------------------------------------
  // get_team_id

  /** An entry of `team_id_dict`, a defaultdict whose default is the string "Undefined". */
  datatype CacheEntry = Undefined | Cached(id: int)

  /** The id the cache knows for an abbreviation; a missing key and an "Undefined" entry are
      alike. */
  function Lookup(cache: map<string, CacheEntry>, abbrev: string): Option<int>
  {
    if abbrev in cache && cache[abbrev].Cached? then Some(cache[abbrev].id) else None
  }

  /** `get_team_id(id_dict, team_abbrev)`: the returned id and the cache afterwards. Reading a
      missing key inserts "Undefined"; a miss that finds the team caches its id. */
  function GetTeamIdResult(cache: map<string, CacheEntry>, teams: seq<TeamRow>, abbrev: string): (r: (int, map<string, CacheEntry>))
    ensures Lookup(cache, abbrev).Some? ==> r == (Lookup(cache, abbrev).value, cache)
    ensures Lookup(cache, abbrev).None? ==> r.0 == TeamIdOf(teams, abbrev).GetOr(-1)
    ensures Lookup(cache, abbrev).None? && TeamIdOf(teams, abbrev).Some? ==> Lookup(r.1, abbrev) == TeamIdOf(teams, abbrev)
    ensures forall a :: a != abbrev ==> Lookup(r.1, a) == Lookup(cache, a)
    ensures TeamIdOf(teams, abbrev).None? ==> forall a :: Lookup(r.1, a) == Lookup(cache, a)
    ensures abbrev in r.1
  {
    if abbrev in cache && cache[abbrev].Cached? then (cache[abbrev].id, cache)
    else
      var touched := cache[abbrev := Undefined];
      match TeamIdOf(teams, abbrev)
      case Some(id) => (id, touched[abbrev := Cached(id)])
      case None => (-1, touched)
  }

  /** Every id the cache knows is the id of that team in `teams`. */
  predicate CacheAgrees(cache: map<string, CacheEntry>, teams: seq<TeamRow>)
  {
    forall a :: a in cache && cache[a].Cached? ==> TeamIdOf(teams, a) == Some(cache[a].id)
  }

  /** With a cache that agrees with the table, `get_team_id` answers as a direct lookup would,
      -1 for an absent team, and the cache still agrees. */
  lemma GetTeamIdAgrees(cache: map<string, CacheEntry>, teams: seq<TeamRow>, abbrev: string)
    requires CacheAgrees(cache, teams)
    ensures GetTeamIdResult(cache, teams, abbrev).0 == TeamIdOf(teams, abbrev).GetOr(-1)
    ensures CacheAgrees(GetTeamIdResult(cache, teams, abbrev).1, teams)
  {
  }

  // ---------------------------------------------------------------------------------------
  // ensure_season and ensure_team

  /** `ensure_season(season_api_id)`: a new season row with the start and end years taken from
      the eight-digit id (`//` and `%` by 10000: floor division, as Dafny's on a positive
      divisor). An id already stored breaks the unique constraint, and that error is ignored. */
  function SeasonEnsured(db: Db, seasonApiId: string): (r: Result<Db, StoreError>)
    ensures r.Err? <==> ParseInt(seasonApiId).None?
    ensures r.Ok? ==> r.value.teams == db.teams && r.value.games == db.games
    ensures r.Ok? ==> SeasonIdOf(r.value.seasons, ParseInt(seasonApiId).value).Some?
    ensures r.Ok? ==> |r.value.seasons| >= |db.seasons| && r.value.seasons[..|db.seasons|] == db.seasons
    ensures r.Ok? && SeasonIdOf(db.seasons, ParseInt(seasonApiId).value).Some? ==> r.value == db
  {
    match ParseInt(seasonApiId)
    case None => Err(ValueError(seasonApiId))
    case Some(n) =>
      if SeasonIdOf(db.seasons, n).Some? then Ok(db)
      else
        var row := SeasonRow(NextRowId(SeasonIds(db.seasons)), n, n / 10000, n % 10000);
        assert (db.seasons + [row])[|db.seasons|].apiID == n;
        Ok(db.(seasons := db.seasons + [row]))
  }

  /** A season `ensure_season` adds splits its id into start and end years:
      `startYear * 10000 + endYear` is the id and `endYear` is four digits. Ensuring it a
      second time changes nothing. */
  lemma SeasonEnsuredYears(db: Db, seasonApiId: string)
    requires ParseInt(seasonApiId).Some?
    ensures var n := ParseInt(seasonApiId).value; var after := SeasonEnsured(db, seasonApiId).value;
      SeasonIdOf(db.seasons, n).None? ==>
        |after.seasons| == |db.seasons| + 1
        && after.seasons[|db.seasons|].apiID == n
        && after.seasons[|db.seasons|].startYear * 10000 + after.seasons[|db.seasons|].endYear == n
        && 0 <= after.seasons[|db.seasons|].endYear < 10000
    ensures SeasonEnsured(SeasonEnsured(db, seasonApiId).value, seasonApiId) == SeasonEnsured(db, seasonApiId)
  {
  }

  /** `ensure_team(abbrev)`: a placeholder team named "Unknown" in conference and division
      "Unknown", unless a team with that abbreviation exists (the unique constraint on
      `nameAbbrev`; the error is ignored). */
  function TeamEnsured(db: Db, abbrev: string): (r: Db)
    ensures r.seasons == db.seasons && r.games == db.games
    ensures TeamIdOf(r.teams, abbrev).Some?
    ensures TeamIdOf(db.teams, abbrev).Some? ==> r == db
    ensures TeamIdOf(db.teams, abbrev).None? ==>
      r.teams == db.teams + [ViewStatements.TeamRow(NextRowId(TeamIds(db.teams)), None, "Unknown", abbrev, "Unknown", "Unknown")]
  {
    if TeamIdOf(db.teams, abbrev).Some? then db
    else
      var row := ViewStatements.TeamRow(NextRowId(TeamIds(db.teams)), None, "Unknown", abbrev, "Unknown", "Unknown");
      assert (db.teams + [row])[|db.teams|] == row;
      db.(teams := db.teams + [row])
  }

  /** Ensuring a team keeps every existing team's id and rows, and a second time changes
      nothing. */
  lemma TeamEnsuredKeeps(db: Db, abbrev: string, other: string)
    ensures TeamEnsured(db, abbrev).teams[..|db.teams|] == db.teams
    ensures TeamIdOf(db.teams, other).Some? ==> TeamIdOf(TeamEnsured(db, abbrev).teams, other) == TeamIdOf(db.teams, other)
    ensures TeamEnsured(TeamEnsured(db, abbrev), abbrev) == TeamEnsured(db, abbrev)
  {
    if TeamIdOf(db.teams, abbrev).None? {
      TeamIdOfAppend(db.teams, TeamEnsured(db, abbrev).teams[|db.teams|], other);
    }
  }

  // ---------------------------------------------------------------------------------------
  // insert_game

  /** The points `insert_game` awards: none for an unknown outcome; 2 to the winner; to the
      loser 1 when `in_ot` is truthy (non-zero) and 0 otherwise. */
  function PointsAwarded(outcome: Option<int>, inOT: int): (r: (Option<int>, Option<int>))
    ensures outcome.None? <==> r.0.None?
    ensures outcome.None? <==> r.1.None?
    ensures outcome == Some(1) ==> r.0 == Some(2)
    ensures outcome == Some(0) ==> r.1 == Some(2)
    ensures outcome.Some? && outcome != Some(1) ==> r.0 == Some(if inOT != 0 then 1 else 0)
    ensures outcome.Some? && outcome != Some(0) ==> r.1 == Some(if inOT != 0 then 1 else 0)
  {
    if outcome.None? then (None, None)
    else
      var loser := if inOT != 0 then 1 else 0;
      (Some(if outcome.value == 1 then 2 else loser), Some(if outcome.value == 0 then 2 else loser))
  }

  /** A decided game awards 2 points in regulation and 3 after overtime, 2 of them to the
      winner. An unfinished game (outcome and in_ot both -1, and -1 is truthy) awards 1 point
      to each side. */
  lemma PointsAwardedTotals(outcome: int, inOT: int)
    ensures (outcome == 0 || outcome == 1) && (inOT == 0 || inOT == 1) ==>
      PointsAwarded(Some(outcome), inOT).0.value + PointsAwarded(Some(outcome), inOT).1.value == 2 + inOT
    ensures PointsAwarded(Some(-1), -1) == (Some(1), Some(1))
  {
  }

  function GameIds(games: seq<GameRecord>): seq<int>
  {
    Map(games, (g: GameRecord) => g.id)
  }

  /** The row `insert_game` writes once the season and both teams exist: the season and team
      ids are the scalar subqueries on the api id and the abbreviations, and outcome and
      in_ot are the game's properties. */
  function NewGameRecord(db: Db, g: Sport.CsvGame, seasonApiId: int, dayOf: string -> int, today: int): GameRecord
    requires SeasonIdOf(db.seasons, seasonApiId).Some?
    requires TeamIdOf(db.teams, g.homeAbbrev).Some? && TeamIdOf(db.teams, g.awayAbbrev).Some?
  {
    var outcome := Sport.Outcome(g);
    var inOT := Sport.InOT(g);
    var points := PointsAwarded(Some(outcome), inOT);
    GameRecord(
      NextRowId(GameIds(db.games)), g.apiId, SeasonIdOf(db.seasons, seasonApiId).value,
      TeamIdOf(db.teams, g.homeAbbrev).value, TeamIdOf(db.teams, g.awayAbbrev).value,
      dayOf(g.datePlayed), g.dayOfYearPlayed, g.yearPlayed, g.timePlayed,
      g.homeTeamGoals, g.awayTeamGoals, g.gameTypeId, g.lastPeriodTypeId,
      Some(outcome), Some(inOT), points.0, points.1, today)
  }

  /** The home and then the away team ensured. */
  function TeamsEnsured(db: Db, home: string, away: string): (r: Db)
    ensures r.seasons == db.seasons && r.games == db.games
    ensures TeamIdOf(r.teams, home).Some? && TeamIdOf(r.teams, away).Some?
    ensures |r.teams| >= |db.teams| && r.teams[..|db.teams|] == db.teams
  {
    var first := TeamEnsured(db, home);
    var both := TeamEnsured(first, away);
    TeamEnsuredKeeps(db, home, home);
    TeamEnsuredKeeps(first, away, home);
    PrefixTransitive(db.teams, first.teams, both.teams);
    both
  }

  /** The season and teams `insert_game` ensures before it inserts. */
  function GameEnsured(db: Db, g: Sport.CsvGame): (r: Result<Db, StoreError>)
    ensures r.Err? <==> ParseInt(g.seasonId).None?
    ensures r.Ok? ==> r.value.games == db.games
                      && SeasonIdOf(r.value.seasons, ParseInt(g.seasonId).value).Some?
                      && TeamIdOf(r.value.teams, g.homeAbbrev).Some? && TeamIdOf(r.value.teams, g.awayAbbrev).Some?
    ensures r.Ok? ==> |r.value.seasons| >= |db.seasons| && r.value.seasons[..|db.seasons|] == db.seasons
                      && |r.value.teams| >= |db.teams| && r.value.teams[..|db.teams|] == db.teams
  {
    var s := SeasonEnsured(db, g.seasonId);
    if s.Err? then Err(s.error)
    else Ok(TeamsEnsured(s.value, g.homeAbbrev, g.awayAbbrev))
  }

  /** `insert_game(game)` reading the game type and last period type from `game_type_id` and
      `last_period_type_id`, the attributes a Game has. */
  function GameInserted(db: Db, g: Sport.CsvGame, dayOf: string -> int, today: int): (r: Result<Db, StoreError>)
    ensures r.Err? <==> ParseInt(g.seasonId).None?
    ensures r.Ok? ==> |r.value.games| == |db.games| + 1 && r.value.games[..|db.games|] == db.games
                      && r.value.games[|db.games|].apiID == g.apiId
  {
    match GameEnsured(db, g)
    case Err(e) => Err(e)
    case Ok(d) =>
      var row := NewGameRecord(d, g, ParseInt(g.seasonId).value, dayOf, today);
      assert (d.games + [row])[..|db.games|] == db.games;
      Ok(d.(games := d.games + [row]))
  }

  /** The new game refers to the season with the parsed api id and to the teams with the
      game's abbreviations, carries a fresh id, the game's outcome and in_ot, and the points
      these award; seasons and teams only gain the rows the `ensure_*` calls add. */
  lemma GameInsertedRecord(db: Db, g: Sport.CsvGame, dayOf: string -> int, today: int)
    requires ParseInt(g.seasonId).Some?
    ensures var after := GameInserted(db, g, dayOf, today).value; var row := after.games[|db.games|];
      && SeasonIdOf(after.seasons, ParseInt(g.seasonId).value) == Some(row.seasonID)
      && TeamIdOf(after.teams, g.homeAbbrev) == Some(row.homeTeamID)
      && TeamIdOf(after.teams, g.awayAbbrev) == Some(row.awayTeamID)
      && (forall i :: 0 <= i < |db.games| ==> db.games[i].id < row.id)
      && row.outcome == Some(Sport.Outcome(g)) && row.inOT == Some(Sport.InOT(g))
      && (row.homeTeamPointsAwarded, row.awayTeamPointsAwarded) == PointsAwarded(row.outcome, Sport.InOT(g))
      && row.datePlayed == dayOf(g.datePlayed) && row.recordCreated == today
      && after.seasons[..|db.seasons|] == db.seasons && after.teams[..|db.teams|] == db.teams
  {
    var d := GameEnsured(db, g).value;
    var row := NewGameRecord(d, g, ParseInt(g.seasonId).value, dayOf, today);
    var after := GameInserted(db, g, dayOf, today).value;
    assert after == d.(games := d.games + [row]);
    assert after.games[|db.games|] == row;
    assert forall i :: 0 <= i < |db.games| ==> db.games[i].id == GameIds(d.games)[i];
  }

  /** Inserting a game only appends to `games`, and the appended game has an outcome. */
  lemma GameInsertedAppends(db: Db, g: Sport.CsvGame, dayOf: string -> int, today: int)
    requires ParseInt(g.seasonId).Some?
    ensures var after := GameInserted(db, g, dayOf, today).value;
      OutcomesKnown(db.games) ==> OutcomesKnown(after.games)
  {
    var d := GameEnsured(db, g).value;
    var row := NewGameRecord(d, g, ParseInt(g.seasonId).value, dayOf, today);
    var after := GameInserted(db, g, dayOf, today).value;
    assert after.games == db.games + [row];
  }

  /** `insert_game(game)` as written: after ensuring the season and teams it reads
      `getattr(game, "game_type")`, an attribute no Game has, so it raises AttributeError and
      inserts no game; the season and teams it ensured stay, each committed on its own. */
  function GameInsertedAsWritten(db: Db, g: Sport.CsvGame): (r: (Db, StoreError))
  {
    match GameEnsured(db, g)
    case Err(e) => (db, e)
    case Ok(d) => (d, AttributeError("game_type"))
  }

  /** As written, inserting a game never adds it, whatever the game; with the attributes a
      Game has, every game with an integer season id is added. */
  lemma InsertGameNeverInserts(db: Db, g: Sport.CsvGame, dayOf: string -> int, today: int)
    ensures GameInsertedAsWritten(db, g).0.games == db.games
    ensures ParseInt(g.seasonId).Some? ==> GameInsertedAsWritten(db, g).1 == AttributeError("game_type")
    ensures ParseInt(g.seasonId).Some? ==>
      GameInserted(db, g, dayOf, today).Ok? && |GameInserted(db, g, dayOf, today).value.games| == |db.games| + 1
  {
  }

  // ---------------------------------------------------------------------------------------
  // update_game

  /** The columns `update_game` sets from the game. */
  function Refreshed(row: GameRecord, g: Sport.CsvGame): GameRecord
  {
    row.(homeTeamGoals := g.homeTeamGoals, awayTeamGoals := g.awayTeamGoals,
         outcome := Some(Sport.Outcome(g)), inOT := Some(Sport.InOT(g)),
         lastPeriodTypeID := g.lastPeriodTypeId)
  }

  function RefreshIfSame(g: Sport.CsvGame): GameRecord -> GameRecord
  {
    (row: GameRecord) => if row.apiID == g.apiId then Refreshed(row, g) else row
  }

  /** `update_game(game)`: `UPDATE games SET ... WHERE apiID = game.api_id`. */
  function GameUpdated(db: Db, g: Sport.CsvGame): Db
  {
    db.(games := Map(db.games, RefreshIfSame(g)))
  }

  /** `update_game` changes only the goals, outcome, in_ot and last period type of the games
      with that api id; teams, seasons, other games, and the points awarded of the updated
      games (which are not recomputed) stay as they were. */
  lemma GameUpdatedScope(db: Db, g: Sport.CsvGame)
    ensures var after := GameUpdated(db, g);
      && after.teams == db.teams && after.seasons == db.seasons && |after.games| == |db.games|
      && (forall i :: 0 <= i < |db.games| && db.games[i].apiID != g.apiId ==> after.games[i] == db.games[i])
      && (forall i :: 0 <= i < |db.games| && db.games[i].apiID == g.apiId ==>
            && after.games[i].outcome == Some(Sport.Outcome(g)) && after.games[i].inOT == Some(Sport.InOT(g))
            && after.games[i].homeTeamGoals == g.homeTeamGoals && after.games[i].awayTeamGoals == g.awayTeamGoals
            && after.games[i].lastPeriodTypeID == g.lastPeriodTypeId
            && after.games[i].(homeTeamGoals := db.games[i].homeTeamGoals, awayTeamGoals := db.games[i].awayTeamGoals,
                 outcome := db.games[i].outcome, inOT := db.games[i].inOT,
                 lastPeriodTypeID := db.games[i].lastPeriodTypeID) == db.games[i])
  {
  }

  // ---------------------------------------------------------------------------------------
  // load_games_to_db

  /** Loading one line of a games file. A game not stored yet is inserted. A stored game is
      updated only from the updatable file (games.txt), and only when its stored outcome is
      NULL or `overwrite` is set; otherwise it is skipped. */
  function LineLoaded(db: Db, line: string, updatable: bool, overwrite: bool, dayOf: string -> int, today: int): (r: Result<Db, StoreError>)
  {
    match Sport.FromCsvLine(line)
    case Err(e) => Err(IndexError(e.fieldCount))
    case Ok(g) =>
      match StoredOutcome(db.games, g.apiId)
      case None => GameInserted(db, g, dayOf, today)
      case Some(stored) => if updatable && (stored.None? || overwrite) then Ok(GameUpdated(db, g)) else Ok(db)
  }

  /** The tables after the lines that loaded, and the error that stopped the loading, if any.
      Games loaded before an error stay, as each is committed on its own. */
  datatype Loaded = Loaded(db: Db, failure: Option<StoreError>)

  /** Loading one line: the tables after it, or the tables as they were and the error. */
  function LineStep(db: Db, line: string, updatable: bool, overwrite: bool, dayOf: string -> int, today: int): (r: Loaded)
    ensures r.failure.Some? ==> r.db == db
  {
    match LineLoaded(db, line, updatable, overwrite, dayOf, today)
    case Ok(d) => Loaded(d, None)
    case Err(e) => Loaded(db, Some(e))
  }

  /** Loading the lines of one file in order, stopping at the first error. */
  function LinesLoaded(db: Db, lines: seq<string>, updatable: bool, overwrite: bool, dayOf: string -> int, today: int): Loaded
    decreases |lines|
  {
    if lines == [] then Loaded(db, None)
    else
      var before := LinesLoaded(db, lines[..|lines| - 1], updatable, overwrite, dayOf, today);
      if before.failure.Some? then before
      else LineStep(before.db, lines[|lines| - 1], updatable, overwrite, dayOf, today)
  }

  /** `load_games_to_db(txt_path, overwrite)`: games.txt (or `txt_path`), then
      games_today.txt, then games_all.txt; only the first is updatable. */
  function GamesLoaded(db: Db, gamesLines: seq<string>, todayLines: seq<string>, allLines: seq<string>,
                       overwrite: bool, dayOf: string -> int, today: int): Loaded
  {
    var first := LinesLoaded(db, gamesLines, true, overwrite, dayOf, today);
    if first.failure.Some? then first
    else
      var second := LinesLoaded(first.db, todayLines, false, overwrite, dayOf, today);
      if second.failure.Some? then second
      else LinesLoaded(second.db, allLines, false, overwrite, dayOf, today)
  }

  /** Loading one more line of a file. */
  lemma LinesLoadedStep(db: Db, lines: seq<string>, i: nat, updatable: bool, overwrite: bool, dayOf: string -> int, today: int, before: Db)
    requires i < |lines|
    requires LinesLoaded(db, lines[..i], updatable, overwrite, dayOf, today) == Loaded(before, None)
    ensures LinesLoaded(db, lines[..i + 1], updatable, overwrite, dayOf, today) == LineStep(before, lines[i], updatable, overwrite, dayOf, today)
  {
    assert lines[..i + 1][..i] == lines[..i];
  }

  /** Once a line has failed, the later lines are not loaded. */
  lemma {:induction false} LinesLoadedStopped(db: Db, lines: seq<string>, j: nat, updatable: bool, overwrite: bool, dayOf: string -> int, today: int)
    requires j <= |lines|
    requires LinesLoaded(db, lines[..j], updatable, overwrite, dayOf, today).failure.Some?
    ensures LinesLoaded(db, lines, updatable, overwrite, dayOf, today) == LinesLoaded(db, lines[..j], updatable, overwrite, dayOf, today)
    decreases |lines| - j
  {
    if j < |lines| {
      assert lines[..j + 1][..j] == lines[..j];
      LinesLoadedStopped(db, lines, j + 1, updatable, overwrite, dayOf, today);
    } else {
      assert lines[..j] == lines;
    }
  }

  /** Every stored game has an outcome. */
  predicate OutcomesKnown(games: seq<GameRecord>)
  {
    forall i :: 0 <= i < |games| ==> games[i].outcome.Some?
  }

  /** `after` holds the games of `before` unchanged, in the same places, possibly followed by
      more; if every game of `before` has an outcome, so does every game of `after`. */
  predicate KeepsGames(before: Db, after: Db)
  {
    && |after.games| >= |before.games| && after.games[..|before.games|] == before.games
    && (OutcomesKnown(before.games) ==> OutcomesKnown(after.games))
  }

  lemma KeepsGamesTransitive(a: Db, b: Db, c: Db)
    requires KeepsGames(a, b) && KeepsGames(b, c)
    ensures KeepsGames(a, c)
  {
    assert c.games[..|a.games|] == c.games[..|b.games|][..|a.games|];
  }

  /** A line of a file that is not updatable, or of games.txt without `overwrite` when every
      stored outcome is known, never changes a stored game: it only appends. Games this model
      inserts always have an outcome (-1 while unfinished), so without `overwrite` a game
      first loaded unfinished is never refreshed from games.txt. */
  lemma LineLoadedKeepsGames(db: Db, line: string, updatable: bool, overwrite: bool, dayOf: string -> int, today: int)
    requires !updatable || (!overwrite && OutcomesKnown(db.games))
    ensures KeepsGames(db, LineStep(db, line, updatable, overwrite, dayOf, today).db)
  {
    match Sport.FromCsvLine(line)
    case Err(_) =>
    case Ok(g) =>
      match StoredOutcome(db.games, g.apiId)
      case None =>
        if ParseInt(g.seasonId).Some? {
          GameInsertedAppends(db, g, dayOf, today);
        }
      case Some(stored) =>
        assert LineLoaded(db, line, updatable, overwrite, dayOf, today) == Ok(db) by {
          if updatable {
            var i :| 0 <= i < |db.games| && db.games[i].apiID == g.apiId && db.games[i].outcome == stored;
          }
        }
  }

  /** The same for a whole file. */
  lemma {:induction false} LinesLoadedKeepGames(db: Db, lines: seq<string>, updatable: bool, overwrite: bool, dayOf: string -> int, today: int)
    requires !updatable || (!overwrite && OutcomesKnown(db.games))
    ensures KeepsGames(db, LinesLoaded(db, lines, updatable, overwrite, dayOf, today).db)
    decreases |lines|
  {
    if lines == [] {
      assert db.games[..|db.games|] == db.games;
    } else {
      var prefix := lines[..|lines| - 1];
      LinesLoadedKeepGames(db, prefix, updatable, overwrite, dayOf, today);
      var before := LinesLoaded(db, prefix, updatable, overwrite, dayOf, today);
      if before.failure.None? {
        LineLoadedKeepsGames(before.db, lines[|lines| - 1], updatable, overwrite, dayOf, today);
        KeepsGamesTransitive(db, before.db, LineStep(before.db, lines[|lines| - 1], updatable, overwrite, dayOf, today).db);
      }
    }
  }

  /** Game `apiId` is stored. */
  predicate Stored(games: seq<GameRecord>, apiId: string)
  {
    exists i :: 0 <= i < |games| && games[i].apiID == apiId
  }

  /** Inserting a game stores it and keeps every stored game stored. */
  lemma GameInsertedStores(db: Db, g: Sport.CsvGame, dayOf: string -> int, today: int, apiId: string)
    requires ParseInt(g.seasonId).Some?
    ensures var after := GameInserted(db, g, dayOf, today).value;
      Stored(after.games, g.apiId) && (Stored(db.games, apiId) ==> Stored(after.games, apiId))
  {
    var after := GameInserted(db, g, dayOf, today).value;
    assert after.games[|db.games|].apiID == g.apiId;
    if Stored(db.games, apiId) {
      var i :| 0 <= i < |db.games| && db.games[i].apiID == apiId;
      assert after.games[i] == after.games[..|db.games|][i];
    }
  }

  /** Updating a game keeps every stored game stored. */
  lemma GameUpdatedStores(db: Db, g: Sport.CsvGame, apiId: string)
    ensures Stored(db.games, apiId) ==> Stored(GameUpdated(db, g).games, apiId)
  {
    if Stored(db.games, apiId) {
      var i :| 0 <= i < |db.games| && db.games[i].apiID == apiId;
      assert GameUpdated(db, g).games[i].apiID == apiId;
    }
  }

  /** Loading a line keeps every stored game stored and, when it succeeds, leaves the line's
      game stored. */
  lemma LineLoadedStores(db: Db, line: string, updatable: bool, overwrite: bool, dayOf: string -> int, today: int, apiId: string)
    ensures var r := LineLoaded(db, line, updatable, overwrite, dayOf, today);
      && (r.Ok? && Stored(db.games, apiId) ==> Stored(r.value.games, apiId))
      && (r.Ok? ==> Sport.FromCsvLine(line).Ok? && Stored(r.value.games, Sport.FromCsvLine(line).value.apiId))
  {
    match Sport.FromCsvLine(line)
    case Err(_) =>
    case Ok(g) =>
      match StoredOutcome(db.games, g.apiId)
      case None =>
        if ParseInt(g.seasonId).Some? {
          GameInsertedStores(db, g, dayOf, today, apiId);
        }
      case Some(_) =>
        GameUpdatedStores(db, g, apiId);
        GameUpdatedStores(db, g, g.apiId);
  }

  /** After a file loads without error, the game of every line is stored, and so is every game
      stored before. */
  lemma {:induction false} LinesLoadedStore(db: Db, lines: seq<string>, updatable: bool, overwrite: bool, dayOf: string -> int, today: int, apiId: string)
    ensures var r := LinesLoaded(db, lines, updatable, overwrite, dayOf, today);
      && (Stored(db.games, apiId) ==> Stored(r.db.games, apiId))
      && (r.failure.None? ==>
            forall k :: 0 <= k < |lines| ==>
              Sport.FromCsvLine(lines[k]).Ok? && (Sport.FromCsvLine(lines[k]).value.apiId == apiId ==> Stored(r.db.games, apiId)))
    decreases |lines|
  {
    if lines != [] {
      var prefix := lines[..|lines| - 1];
      var last := lines[|lines| - 1];
      LinesLoadedStore(db, prefix, updatable, overwrite, dayOf, today, apiId);
      var before := LinesLoaded(db, prefix, updatable, overwrite, dayOf, today);
      if before.failure.None? {
        LineLoadedStores(before.db, last, updatable, overwrite, dayOf, today, apiId);
        var r := LinesLoaded(db, lines, updatable, overwrite, dayOf, today);
        if r.failure.None? {
          forall k | 0 <= k < |lines|
            ensures Sport.FromCsvLine(lines[k]).Ok? && (Sport.FromCsvLine(lines[k]).value.apiId == apiId ==> Stored(r.db.games, apiId))
          {
            if k < |lines| - 1 {
              assert lines[k] == prefix[k];
            }
          }
        }
      }
    }
  }

  // ---------------------------------------------------------------------------------------
  // gamePredictions, predicterRegister and lastTraining

  /** The key of `gamePredictions`: (gameID, predicterID). */
  function PredictionKey(): seq<KeyColumn>
  {
    [ColumnName("gameID"), ColumnName("predicterID")]
  }

  /** The values `record_game_prediction` upserts; a prediction of exactly 0.5 is binary 0. */
  function PredictionValues(gameId: int, predicterId: int, prediction: real, today: int): (v: Record)
    ensures v.Keys == {"gameID", "predicterID", "prediction", "predictionBinary", "predictionDate"}
    ensures forall c :: c in KeyNames(PredictionKey()) ==> Given(v, c)
    ensures v["gameID"] == IntV(gameId) && v["predicterID"] == IntV(predicterId)
    ensures v["prediction"] == RealV(prediction) && v["predictionDate"] == DateV(today)
    ensures v["predictionBinary"] == IntV(1) <==> prediction > 0.5
    ensures v["predictionBinary"] == IntV(0) <==> prediction <= 0.5
  {
    map["gameID" := IntV(gameId), "predicterID" := IntV(predicterId), "prediction" := RealV(prediction),
        "predictionBinary" := IntV(if prediction > 0.5 then 1 else 0), "predictionDate" := DateV(today)]
  }

  /** Recording a prediction twice for the same game and predicter leaves exactly one row for
      the pair, holding the second prediction. */
  lemma RepeatedPredictionKeepsNewest(dialect: Dialect, rows: seq<Record>, gameId: int, predicterId: int,
                                      first: real, second: real, firstDay: int, secondDay: int) returns (m: nat)
    requires Unique(rows, KeyNames(PredictionKey()))
    ensures var keys := KeyNames(PredictionKey());
      var v := PredictionValues(gameId, predicterId, second, secondDay);
      var once := UpsertResult(dialect, rows, PredictionValues(gameId, predicterId, first, firstDay), PredictionKey(), None);
      && once.Ok? && UpsertResult(dialect, once.value, v, PredictionKey(), None).Ok?
      && var twice := UpsertResult(dialect, once.value, v, PredictionKey(), None).value;
      && Unique(twice, keys)
      && m < |twice| && Matches(twice[m], v, keys)
      && Cell(twice[m], "prediction") == Some(RealV(second)) && Cell(twice[m], "predictionDate") == Some(DateV(secondDay))
      && (forall i :: 0 <= i < |twice| && i != m ==> !Matches(twice[i], v, keys))
  {
    var keys := KeyNames(PredictionKey());
    var v1 := PredictionValues(gameId, predicterId, first, firstDay);
    var v := PredictionValues(gameId, predicterId, second, secondDay);
    KeyedUpsertResult(dialect, rows, v1, PredictionKey(), None);
    var _ := UpsertKeyed(rows, v1, keys, None);
    var once := UpsertResult(dialect, rows, v1, PredictionKey(), None).value;
    KeyedUpsertResult(dialect, once, v, PredictionKey(), None);
    m := UpsertKeyed(once, v, keys, None);
  }

  /** The date recorded in a prediction row of predicter `predicterId`, if any. */
  function PredictionDay(row: Record, predicterId: int): Option<int>
  {
    if "predicterID" in row && row["predicterID"] == IntV(predicterId) && "predictionDate" in row && row["predictionDate"].DateV?
    then Some(row["predictionDate"].day) else None
  }

  /** `get_last_prediction_date`: `MAX(predictionDate)` over the predicter's rows, NULL when
      it has no dated row. */
  function LastPredictionDate(rows: seq<Record>, predicterId: int): (r: Option<int>)
    ensures r.None? <==> forall i :: 0 <= i < |rows| ==> PredictionDay(rows[i], predicterId).None?
    ensures r.Some? ==> exists i :: 0 <= i < |rows| && PredictionDay(rows[i], predicterId) == r
    ensures r.Some? ==> forall i :: 0 <= i < |rows| && PredictionDay(rows[i], predicterId).Some? ==>
                          PredictionDay(rows[i], predicterId).value <= r.value
  {
    if rows == [] then None
    else
      var rest := LastPredictionDate(rows[1..], predicterId);
      var here := PredictionDay(rows[0], predicterId);
      assert forall i :: 1 <= i < |rows| ==> rows[i] == rows[1..][i - 1];
      if here.None? then rest
      else if rest.None? || rest.value < here.value then here
      else rest
  }

  /** After recording a prediction, the predicter's last prediction date is at least the
      recording day. */
  lemma RecordedPredictionIsLatest(dialect: Dialect, rows: seq<Record>, gameId: int, predicterId: int, prediction: real, today: int)
    requires Unique(rows, KeyNames(PredictionKey()))
    ensures var after := UpsertResult(dialect, rows, PredictionValues(gameId, predicterId, prediction, today), PredictionKey(), None);
      after.Ok? && LastPredictionDate(after.value, predicterId).Some? && LastPredictionDate(after.value, predicterId).value >= today
  {
    var v := PredictionValues(gameId, predicterId, prediction, today);
    KeyedUpsertResult(dialect, rows, v, PredictionKey(), None);
    var m := UpsertKeyed(rows, v, KeyNames(PredictionKey()), None);
    var after := UpsertResult(dialect, rows, v, PredictionKey(), None).value;
    assert PredictionDay(after[m], predicterId) == Some(today);
  }

  /** The values `add_predicter_to_register` upserts; the booleans are stored as 0 or 1. */
  function RegisterValues(name: string, predicterType: string, path: string, trainable: bool, active: bool): (v: Record)
    ensures v.Keys == {"predicterName", "predicterType", "predicterPath", "trainable", "active"}
    ensures Given(v, "predicterName") && v["predicterName"] == StrV(name)
    ensures "id" !in v
    ensures v["trainable"] == IntV(if trainable then 1 else 0) && v["active"] == IntV(if active then 1 else 0)
  {
    map["predicterName" := StrV(name), "predicterType" := StrV(predicterType), "predicterPath" := StrV(path),
        "trainable" := IntV(if trainable then 1 else 0), "active" := IntV(if active then 1 else 0)]
  }

  function NameKey(name: string): Record
  {
    map["predicterName" := StrV(name)]
  }

  /** `predicter_id_from_name`: the id of the first register row with that name, ValueError
      when there is none. */
  function PredicterIdFromName(rows: seq<Record>, name: string): (r: Result<Option<Value>, StoreError>)
    ensures r.Err? <==> !AnyMatch(rows, NameKey(name), ["predicterName"])
    ensures r.Ok? ==> exists i :: 0 <= i < |rows| && Matches(rows[i], NameKey(name), ["predicterName"]) && r.value == Cell(rows[i], "id")
  {
    match FirstMatch(rows, NameKey(name), ["predicterName"])
    case None => Err(ValueError(name))
    case Some(i) => Ok(Cell(rows[i], "id"))
  }

  /** Every register row has an integer id. */
  predicate HasIds(rows: seq<Record>)
  {
    forall i :: 0 <= i < |rows| ==> Given(rows[i], "id") && rows[i]["id"].IntV?
  }

  /** Registering a predicter and then looking up its name yields an integer id; registering
      a name already present keeps its id. */
  lemma RegisterThenLookup(dialect: Dialect, rows: seq<Record>, name: string, predicterType: string, path: string, trainable: bool, active: bool)
    requires Unique(rows, ["predicterName"]) && HasIds(rows)
    ensures var after := UpsertResult(dialect, rows, RegisterValues(name, predicterType, path, trainable, active), [ColumnName("predicterName")], Some("id"));
      && after.Ok? && HasIds(after.value) && Unique(after.value, ["predicterName"])
      && PredicterIdFromName(after.value, name).Ok? && PredicterIdFromName(after.value, name).value.Some?
      && PredicterIdFromName(after.value, name).value.value.IntV?
      && (AnyMatch(rows, NameKey(name), ["predicterName"]) ==> PredicterIdFromName(after.value, name) == PredicterIdFromName(rows, name))
  {
    var v := RegisterValues(name, predicterType, path, trainable, active);
    assert KeyNames([ColumnName("predicterName")]) == ["predicterName"];
    KeyedUpsertResult(dialect, rows, v, [ColumnName("predicterName")], Some("id"));
    RegisteredLookup(rows, v, name);
  }

  /** `RegisterThenLookup` for the ON CONFLICT upsert of register values `v` naming `name`. */
  lemma RegisteredLookup(rows: seq<Record>, v: Record, name: string)
    requires Unique(rows, ["predicterName"]) && HasIds(rows)
    requires "id" !in v && Given(v, "predicterName") && v["predicterName"] == StrV(name)
    ensures var after := OnConflictUpsert(rows, v, ["predicterName"], Some("id"));
      && after.Ok? && HasIds(after.value) && Unique(after.value, ["predicterName"])
      && PredicterIdFromName(after.value, name).Ok? && PredicterIdFromName(after.value, name).value.Some?
      && PredicterIdFromName(after.value, name).value.value.IntV?
      && (AnyMatch(rows, NameKey(name), ["predicterName"]) ==> PredicterIdFromName(after.value, name) == PredicterIdFromName(rows, name))
  {
    var keys := ["predicterName"];
    var m := UpsertKeyed(rows, v, keys, Some("id"));
    var after := OnConflictUpsert(rows, v, keys, Some("id")).value;
    RegisteredIds(rows, v, keys, m);
    NameKeyMatches(name, v);
    FirstMatchAt(after, NameKey(name), keys, m);
    var before := AnyMatch(rows, NameKey(name), keys);
    if before {
      assert m < |rows|;
      forall j | 0 <= j < m ensures !Matches(rows[j], NameKey(name), keys) {
        MatchesExcludes(rows[m], rows[j], v, keys);
      }
      FirstMatchAt(rows, NameKey(name), keys, m);
    }
    LookupAt(rows, after, name, m, before);
  }

  /** Looking up a name whose first match is row `m` of a table with integer ids. */
  lemma LookupAt(rows: seq<Record>, after: seq<Record>, name: string, m: nat, before: bool)
    requires HasIds(after) && FirstMatch(after, NameKey(name), ["predicterName"]) == Some(m)
    requires before == AnyMatch(rows, NameKey(name), ["predicterName"])
    requires before ==> FirstMatch(rows, NameKey(name), ["predicterName"]) == Some(m) && Cell(after[m], "id") == Cell(rows[m], "id")
    ensures PredicterIdFromName(after, name).Ok? && PredicterIdFromName(after, name).value.Some?
    ensures PredicterIdFromName(after, name).value.value.IntV?
    ensures before ==> PredicterIdFromName(after, name) == PredicterIdFromName(rows, name)
  {
    assert PredicterIdFromName(after, name) == Ok(Cell(after[m], "id"));
    if before {
      assert PredicterIdFromName(rows, name) == Ok(Cell(rows[m], "id"));
    }
  }

  /** A row matches the register values on the name key exactly when it has that name. */
  lemma NameKeyMatches(name: string, v: Record)
    requires Given(v, "predicterName") && v["predicterName"] == StrV(name)
    ensures forall row :: Matches(row, v, ["predicterName"]) <==> Matches(row, NameKey(name), ["predicterName"])
  {
  }

  lemma RegisteredIds(rows: seq<Record>, v: Record, keys: seq<string>, m: nat)
    requires HasIds(rows) && "id" !in v && Unique(rows, keys)
    requires forall c :: c in keys ==> Given(v, c)
    requires var after := OnConflictUpsert(rows, v, keys, Some("id"));
      && after.Ok? && m < |after.value| && Matches(after.value[m], v, keys)
      && (forall i :: 0 <= i < |after.value| && i != m ==> !Matches(after.value[i], v, keys))
      && (forall i :: 0 <= i < |rows| && i != m ==> i < |after.value| && after.value[i] == rows[i])
    ensures var after := OnConflictUpsert(rows, v, keys, Some("id")).value;
      && HasIds(after)
      && FirstMatch(after, v, keys) == Some(m)
      && (m < |rows| ==> Cell(after[m], "id") == Cell(rows[m], "id"))
  {
  }

  /** The values `add_predicter_to_last_training` (no date: NULL) and
      `set_last_training_date` (today) upsert, keyed by predicterID. */
  function TrainingValues(predicterId: int, date: Option<int>): (v: Record)
    ensures v.Keys == {"predicterID", "lastTrainingDate"}
    ensures Given(v, "predicterID") && v["predicterID"] == IntV(predicterId)
    ensures Cell(v, "lastTrainingDate") == (if date.Some? then Some(DateV(date.value)) else None)
  {
    map["predicterID" := IntV(predicterId), "lastTrainingDate" := if date.Some? then DateV(date.value) else NullV]
  }

  function IdKey(predicterId: int): Record
  {
    map["predicterID" := IntV(predicterId)]
  }

  /** `get_last_training_date`: the date of the first row for the predicter; None when there
      is no such row or its date is NULL. */
  function LastTrainingDate(rows: seq<Record>, predicterId: int): (r: Option<Value>)
    ensures !AnyMatch(rows, IdKey(predicterId), ["predicterID"]) ==> r.None?
    ensures r.Some? ==> exists i :: 0 <= i < |rows| && Matches(rows[i], IdKey(predicterId), ["predicterID"])
                                   && Cell(rows[i], "lastTrainingDate") == r
  {
    match FirstMatch(rows, IdKey(predicterId), ["predicterID"])
    case None => None
    case Some(i) => Cell(rows[i], "lastTrainingDate")
  }

  /** Adding a predicter to `lastTraining` and then reading its date gives None; setting the
      date to a day and then reading it gives that day. Other predicters' dates are kept. */
  lemma TrainingDateRoundTrip(dialect: Dialect, rows: seq<Record>, predicterId: int, date: Option<int>, other: int)
    requires Unique(rows, ["predicterID"])
    ensures var after := UpsertResult(dialect, rows, TrainingValues(predicterId, date), [ColumnName("predicterID")], None);
      && after.Ok? && Unique(after.value, ["predicterID"])
      && LastTrainingDate(after.value, predicterId) == (if date.Some? then Some(DateV(date.value)) else None)
      && (other != predicterId ==> LastTrainingDate(after.value, other) == LastTrainingDate(rows, other))
  {
    var v := TrainingValues(predicterId, date);
    var keys := ["predicterID"];
    assert KeyNames([ColumnName("predicterID")]) == keys;
    KeyedUpsertResult(dialect, rows, v, [ColumnName("predicterID")], None);
    var m := UpsertKeyed(rows, v, keys, None);
    var after := UpsertResult(dialect, rows, v, [ColumnName("predicterID")], None).value;
    assert forall row :: Matches(row, v, keys) <==> Matches(row, IdKey(predicterId), keys);
    assert FirstMatch(after, IdKey(predicterId), keys) == Some(m);
    if other != predicterId {
      OtherKeyKept(rows, after, v, keys, m, IdKey(other));
      assert FirstMatch(after, IdKey(other), keys) == FirstMatch(rows, IdKey(other), keys);
    }
  }

  /** Rows other than `m` keep their place, and the row at `m` matches `v` before and after,
      so not `w`: the first row matching `w` is the same before and after. */
  lemma OtherKeyKept(rows: seq<Record>, after: seq<Record>, v: Record, keys: seq<string>, m: nat, w: Record)
    requires |after| == (if m == |rows| then |rows| + 1 else |rows|) && m <= |rows|
    requires forall i :: 0 <= i < |rows| && i != m ==> after[i] == rows[i]
    requires Matches(after[m], v, keys)
    requires m < |rows| ==> Matches(rows[m], v, keys)
    requires forall row :: Matches(row, v, keys) ==> !Matches(row, w, keys)
    ensures FirstMatch(after, w, keys) == FirstMatch(rows, w, keys)
    ensures FirstMatch(rows, w, keys).Some? ==> after[FirstMatch(rows, w, keys).value] == rows[FirstMatch(rows, w, keys).value]
  {
    assert !Matches(after[m], w, keys);
    forall j | 0 <= j < |rows| ensures Matches(after[j], w, keys) <==> Matches(rows[j], w, keys) {
      if j == m {
        assert !Matches(rows[m], w, keys);
      }
    }
    var x := FirstMatch(after, w, keys);
    var y := FirstMatch(rows, w, keys);
    if x.Some? {
      assert x.value != m && x.value < |rows|;
      assert Matches(rows[x.value], w, keys);
      assert y.Some? && y.value <= x.value;
    }
    if y.Some? {
      assert Matches(after[y.value], w, keys);
      assert x.Some? && x.value <= y.value;
    }
  }

  // ---------------------------------------------------------------------------------------
  // The handler

  /** `SQLHandler` on one database. */
  class Store {
    const dialect: Dialect
    /** `today_date`, read once when the module is imported. */
    const today: int
    /** `date_str_to_py`, a date string as a day number. */
    const dayOf: string -> int
    var teams: seq<TeamRow>
    var seasons: seq<SeasonRow>
    var games: seq<GameRecord>
    /** `team_id_dict`. */
    var teamIdCache: map<string, CacheEntry>
    const gamePredictions: Table
    const predicterRegister: Table
    const lastTraining: Table

    /** The bookkeeping tables are distinct, only `predicterRegister` generates its id, and
        each keeps its unique constraint: one prediction per game and predicter, one register
        row per name, each with an integer id, and one training row per predicter. */
    ghost predicate Valid()
      reads gamePredictions, predicterRegister, lastTraining
    {
      && gamePredictions != predicterRegister && gamePredictions != lastTraining && predicterRegister != lastTraining
      && gamePredictions.autoId == None && predicterRegister.autoId == Some("id") && lastTraining.autoId == None
      && Unique(gamePredictions.rows, KeyNames(PredictionKey()))
      && Unique(predicterRegister.rows, ["predicterName"]) && HasIds(predicterRegister.rows)
      && Unique(lastTraining.rows, ["predicterID"])
    }

    function State(): Db
      reads this
    {
      Db(teams, seasons, games)
    }

    constructor(dialect: Dialect, today: int, dayOf: string -> int, db: Db,
                predictions: seq<Record>, register: seq<Record>, training: seq<Record>)
      requires Unique(predictions, KeyNames(PredictionKey()))
      requires Unique(register, ["predicterName"]) && HasIds(register)
      requires Unique(training, ["predicterID"])
      ensures Valid()
      ensures this.dialect == dialect && this.today == today && this.dayOf == dayOf
      ensures State() == db && teamIdCache == map[]
      ensures gamePredictions.rows == predictions && predicterRegister.rows == register && lastTraining.rows == training
    {
      this.dialect := dialect;
      this.today := today;
      this.dayOf := dayOf;
      teams := db.teams;
      seasons := db.seasons;
      games := db.games;
      teamIdCache := map[];
      gamePredictions := new Table(None, predictions);
      predicterRegister := new Table(Some("id"), register);
      lastTraining := new Table(None, training);
    }

    /** `get_team_id(self.team_id_dict, team_abbrev)`. */
    method GetTeamId(abbrev: string) returns (teamId: int)
      modifies this
      ensures (teamId, teamIdCache) == GetTeamIdResult(old(teamIdCache), teams, abbrev)
      ensures State() == old(State())
    {
      if abbrev !in teamIdCache {
        teamIdCache := teamIdCache[abbrev := Undefined];
      }
      if teamIdCache[abbrev].Undefined? {
        assert teamIdCache == old(teamIdCache)[abbrev := Undefined];
        var found := TeamIdOf(teams, abbrev);
        if found.Some? {
          teamId := found.value;
          teamIdCache := teamIdCache[abbrev := Cached(teamId)];
        } else {
          teamId := -1;
        }
      } else {
        teamId := teamIdCache[abbrev].id;
      }
    }

    /** `ensure_season(season_api_id)`. */
    method EnsureSeason(seasonApiId: string) returns (r: Result<(), StoreError>)
      modifies this
      ensures var e := SeasonEnsured(old(State()), seasonApiId);
        && (r.Ok? <==> e.Ok?)
        && (e.Ok? ==> State() == e.value)
        && (e.Err? ==> State() == old(State()) && r.error == e.error)
      ensures teamIdCache == old(teamIdCache)
    {
      var n := ParseInt(seasonApiId);
      if n.None? {
        return Err(ValueError(seasonApiId));
      }
      if SeasonIdOf(seasons, n.value).None? {
        seasons := seasons + [SeasonRow(NextRowId(SeasonIds(seasons)), n.value, n.value / 10000, n.value % 10000)];
      }
      return Ok(());
    }

    /** `ensure_team(abbrev)`. */
    method EnsureTeam(abbrev: string)
      modifies this
      ensures State() == TeamEnsured(old(State()), abbrev)
      ensures teamIdCache == old(teamIdCache)
    {
      if TeamIdOf(teams, abbrev).None? {
        teams := teams + [ViewStatements.TeamRow(NextRowId(TeamIds(teams)), None, "Unknown", abbrev, "Unknown", "Unknown")];
      }
    }

    /** `insert_game(game)`, with the game type and last period type read from the attributes
        a Game has. */
    method InsertGame(g: Sport.CsvGame) returns (r: Result<(), StoreError>)
      modifies this
      ensures var e := GameInserted(old(State()), g, dayOf, today);
        && (r.Ok? <==> e.Ok?)
        && (e.Ok? ==> State() == e.value)
        && (e.Err? ==> State() == old(State()) && r.error == e.error)
      ensures teamIdCache == old(teamIdCache)
    {
      r := EnsureSeason(g.seasonId);
      if r.Err? {
        return;
      }
      EnsureTeam(g.homeAbbrev);
      ghost var afterHome := State();
      EnsureTeam(g.awayAbbrev);
      TeamEnsuredKeeps(afterHome, g.awayAbbrev, g.homeAbbrev);
      assert State() == GameEnsured(old(State()), g).value;
      var row := NewGameRecord(State(), g, ParseInt(g.seasonId).value, dayOf, today);
      games := games + [row];
    }

    /** `update_game(game)`. */
    method UpdateGame(g: Sport.CsvGame)
      modifies this
      ensures State() == GameUpdated(old(State()), g)
      ensures teamIdCache == old(teamIdCache)
    {
      games := Map(games, RefreshIfSame(g));
    }

    /** One line of a games file: insert, update or skip. */
    method LoadLine(line: string, updatable: bool, overwrite: bool) returns (r: Result<(), StoreError>)
      modifies this
      ensures LineStep(old(State()), line, updatable, overwrite, dayOf, today) == Loaded(State(), if r.Ok? then None else Some(r.error))
      ensures teamIdCache == old(teamIdCache)
    {
      var parsed := Sport.FromCsvLine(line);
      if parsed.Err? {
        return Err(IndexError(parsed.error.fieldCount));
      }
      var g := parsed.value;
      var existing := StoredOutcome(games, g.apiId);
      if existing.None? {
        r := InsertGame(g);
      } else if updatable && (existing.value.None? || overwrite) {
        UpdateGame(g);
        r := Ok(());
      } else {
        r := Ok(());
      }
    }

    /** The lines of one games file in order; an error stops the loading. */
    method LoadFile(lines: seq<string>, updatable: bool, overwrite: bool) returns (r: Result<(), StoreError>)
      modifies this
      ensures LinesLoaded(old(State()), lines, updatable, overwrite, dayOf, today) == Loaded(State(), if r.Ok? then None else Some(r.error))
      ensures teamIdCache == old(teamIdCache)
    {
      ghost var start := State();
      var i := 0;
      while i < |lines|
        invariant 0 <= i <= |lines|
        invariant LinesLoaded(start, lines[..i], updatable, overwrite, dayOf, today) == Loaded(State(), None)
        invariant teamIdCache == old(teamIdCache)
      {
        r := LoadNext(start, lines, i, updatable, overwrite);
        if r.Err? {
          return;
        }
        i := i + 1;
      }
      assert lines[..i] == lines;
      r := Ok(());
    }

    /** The body of the loading loop: line `i` of a file whose earlier lines loaded from
        `start` without error. */
    method LoadNext(ghost start: Db, lines: seq<string>, i: nat, updatable: bool, overwrite: bool) returns (r: Result<(), StoreError>)
      requires i < |lines|
      requires LinesLoaded(start, lines[..i], updatable, overwrite, dayOf, today) == Loaded(State(), None)
      modifies this
      ensures r.Ok? ==> LinesLoaded(start, lines[..i + 1], updatable, overwrite, dayOf, today) == Loaded(State(), None)
      ensures r.Err? ==> LinesLoaded(start, lines, updatable, overwrite, dayOf, today) == Loaded(State(), Some(r.error))
      ensures teamIdCache == old(teamIdCache)
    {
      LinesLoadedStep(start, lines, i, updatable, overwrite, dayOf, today, State());
      r := LoadLine(lines[i], updatable, overwrite);
      if r.Err? {
        LinesLoadedStopped(start, lines, i + 1, updatable, overwrite, dayOf, today);
      }
    }

    /** `load_games_to_db(txt_path, overwrite)`, given the lines of games.txt (or `txt_path`),
        games_today.txt and games_all.txt. */
    method LoadGames(gamesLines: seq<string>, todayLines: seq<string>, allLines: seq<string>, overwrite: bool)
      returns (r: Result<(), StoreError>)
      modifies this
      ensures GamesLoaded(old(State()), gamesLines, todayLines, allLines, overwrite, dayOf, today) == Loaded(State(), if r.Ok? then None else Some(r.error))
      ensures teamIdCache == old(teamIdCache)
    {
      r := LoadFile(gamesLines, true, overwrite);
      if r.Err? {
        return;
      }
      r := LoadFile(todayLines, false, overwrite);
      if r.Err? {
        return;
      }
      r := LoadFile(allLines, false, overwrite);
    }

    /** `record_game_prediction(game_id, predicter_id, prediction)`. */
    method RecordGamePrediction(gameId: int, predicterId: int, prediction: real) returns (r: Result<(), UpsertError>)
      requires Valid()
      modifies gamePredictions
      ensures r.Ok? && Valid()
      ensures gamePredictions.rows == UpsertResult(dialect, old(gamePredictions.rows), PredictionValues(gameId, predicterId, prediction, today), PredictionKey(), None).value
      ensures predicterRegister.rows == old(predicterRegister.rows) && lastTraining.rows == old(lastTraining.rows)
    {
      var values := PredictionValues(gameId, predicterId, prediction, today);
      KeyedUpsertResult(dialect, gamePredictions.rows, values, PredictionKey(), None);
      var _ := UpsertKeyed(gamePredictions.rows, values, KeyNames(PredictionKey()), None);
      r := gamePredictions.Upsert(dialect, values, PredictionKey());
    }

    /** `add_predicter_to_register(name, predicter_class_name, path, trainable, active)`. */
    method AddPredicterToRegister(name: string, predicterType: string, path: string, trainable: bool, active: bool)
      returns (r: Result<(), UpsertError>)
      requires Valid()
      modifies predicterRegister
      ensures r.Ok? && Valid()
      ensures predicterRegister.rows == UpsertResult(dialect, old(predicterRegister.rows),
                RegisterValues(name, predicterType, path, trainable, active), [ColumnName("predicterName")], Some("id")).value
      ensures gamePredictions.rows == old(gamePredictions.rows) && lastTraining.rows == old(lastTraining.rows)
    {
      var values := RegisterValues(name, predicterType, path, trainable, active);
      assert KeyNames([ColumnName("predicterName")]) == ["predicterName"];
      RegisterThenLookup(dialect, predicterRegister.rows, name, predicterType, path, trainable, active);
      r := predicterRegister.Upsert(dialect, values, [ColumnName("predicterName")]);
    }

    /** `add_predicter_to_last_training(predicter_id)` (no date) and
        `set_last_training_date(predicter_id)` (today). */
    method SetTrainingDate(predicterId: int, date: Option<int>) returns (r: Result<(), UpsertError>)
      requires Valid()
      modifies lastTraining
      ensures r.Ok? && Valid()
      ensures lastTraining.rows == UpsertResult(dialect, old(lastTraining.rows), TrainingValues(predicterId, date), [ColumnName("predicterID")], None).value
      ensures gamePredictions.rows == old(gamePredictions.rows) && predicterRegister.rows == old(predicterRegister.rows)
    {
      var values := TrainingValues(predicterId, date);
      assert KeyNames([ColumnName("predicterID")]) == ["predicterID"];
      KeyedUpsertResult(dialect, lastTraining.rows, values, [ColumnName("predicterID")], None);
      TrainingDateRoundTrip(dialect, lastTraining.rows, predicterId, date, predicterId);
      r := lastTraining.Upsert(dialect, values, [ColumnName("predicterID")]);
    }

    method AddPredicterToLastTraining(predicterId: int) returns (r: Result<(), UpsertError>)
      requires Valid()
      modifies lastTraining
      ensures r.Ok? && Valid()
      ensures lastTraining.rows == UpsertResult(dialect, old(lastTraining.rows), TrainingValues(predicterId, None), [ColumnName("predicterID")], None).value
      ensures gamePredictions.rows == old(gamePredictions.rows) && predicterRegister.rows == old(predicterRegister.rows)
    {
      r := SetTrainingDate(predicterId, None);
    }

    method SetLastTrainingDate(predicterId: int) returns (r: Result<(), UpsertError>)
      requires Valid()
      modifies lastTraining
      ensures r.Ok? && Valid()
      ensures lastTraining.rows == UpsertResult(dialect, old(lastTraining.rows), TrainingValues(predicterId, Some(today)), [ColumnName("predicterID")], None).value
      ensures gamePredictions.rows == old(gamePredictions.rows) && predicterRegister.rows == old(predicterRegister.rows)
    {
      r := SetTrainingDate(predicterId, Some(today));
    }
  }
}
