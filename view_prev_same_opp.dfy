/** What the `games_prev_same_opp` view computes, stated directly: for a game, the latest
    earlier game of the same season between the same two teams, with that game's own
    outcome and overtime columns. */
module ViewPrevSameOpp {
  import opened Wrappers
  import opened Seqs
  import opened SqlNulls
  import opened ViewStatements
  import opened ViewHistory

  /** Team `id` has a row in `teams`. */
  ghost predicate TeamListed(teams: seq<TeamRow>, id: int)
  {
    exists tm :: tm in teams && tm.id == id
  }

  /** The foreign keys of `games.homeTeamID` and `games.awayTeamID`. */
  ghost predicate TeamsPresent(games: seq<GameRow>, teams: seq<TeamRow>)
  {
    forall gm :: gm in games ==> TeamListed(teams, gm.homeTeamID) && TeamListed(teams, gm.awayTeamID)
  }

  predicate Plays(o: GameRow, t: int)
  {
    t == o.homeTeamID || t == o.awayTeamID
  }

  /** No team plays two games on one day. */
  ghost predicate OneGamePerDay(games: seq<GameRow>)
  {
    forall a, b, t :: a in games && b in games && Plays(a, t) && Plays(b, t) && a.datePlayed == b.datePlayed ==> a == b
  }

  /** `o` is an earlier game of the same season between the two teams of `g`, either way round. */
  predicate Meets(o: GameRow, g: GameRow)
  {
    && o.seasonID == g.seasonID && o.datePlayed < g.datePlayed
    && ((o.homeTeamID == g.homeTeamID && o.awayTeamID == g.awayTeamID)
        || (o.homeTeamID == g.awayTeamID && o.awayTeamID == g.homeTeamID))
  }

  function MeetsMask(g: GameRow): GameRow -> bool
  {
    (o: GameRow) => Meets(o, g)
  }

  /** The earlier meetings of the two teams of `g` in its season. */
  function Meetings(games: seq<GameRow>, g: GameRow): seq<GameRow>
  {
    Filter(games, MeetsMask(g))
  }

  // ---------------------------------------------------------------------------------------

  lemma SameIdSameGame(games: seq<GameRow>, teams: seq<TeamRow>, a: GameRow, b: GameRow)
    requires ValidDb(games, teams) && a in games && b in games && a.id == b.id
    ensures a == b
  {
    var i :| 0 <= i < |games| && games[i] == a;
    var j :| 0 <= j < |games| && games[j] == b;
    assert !(i < j) && !(j < i);
  }

  lemma GameIndex(games: seq<GameRow>, teams: seq<TeamRow>, g: GameRow) returns (k: nat)
    requires g in games
    ensures k < |games| && games[k] == g
  {
    k :| 0 <= k < |games| && games[k] == g;
  }

  /** The group of (g, t) is the set of rows of `games_with_previous` with that key. */
  lemma GroupRowsAreGroup(games: seq<GameRow>, teams: seq<TeamRow>, g: GameRow, t: int)
    requires ValidDb(games, teams) && g in games && Plays(g, t) && TeamListed(teams, t)
    ensures Filter(GamesWithPrevious(games, teams), GroupKey(g.id, t)) == GroupRows(games, g, t)
  {
    var k := GameIndex(games, teams, g);
    var tm :| tm in teams && tm.id == t;
    var j :| 0 <= j < |teams| && teams[j] == tm;
    GroupIsPrevRows(games, teams, k, t, j);
    PrevRowsForIsGroupRows(games, teams, g, t);
  }

  /** A row of `games_with_previous` for game g belongs to the group of one of g's teams. */
  lemma RowOfGame(games: seq<GameRow>, teams: seq<TeamRow>, g: GameRow, b: PrevRow)
    requires ValidDb(games, teams) && g in games
    requires b in GamesWithPrevious(games, teams) && b.gameID == g.id
    ensures Plays(g, b.teamID) && TeamListed(teams, b.teamID)
    ensures b in GroupRows(games, g, b.teamID)
  {
    var gpt := GamesPerTeam(games);
    FlatMapMember(gpt, Block(games, teams, gpt), b);
    var i :| 0 <= i < |gpt| && b in Block(games, teams, gpt)(gpt[i]);
    BlockKeys(games, teams, gpt, gpt[i], b);
    PerTeamOrigin(games, gpt[i]);
    var gm :| gm in games && gpt[i].gameID == gm.id && Plays(gm, gpt[i].teamID);
    SameIdSameGame(games, teams, gm, g);
    GroupRowsAreGroup(games, teams, g, b.teamID);
    FilterMember(GamesWithPrevious(games, teams), GroupKey(g.id, b.teamID), b);
  }

  lemma GroupRowInView(games: seq<GameRow>, teams: seq<TeamRow>, g: GameRow, t: int, b: PrevRow)
    requires ValidDb(games, teams) && g in games && Plays(g, t) && TeamListed(teams, t)
    requires b in GroupRows(games, g, t)
    ensures b in GamesWithPrevious(games, teams) && b.gameID == g.id && b.teamID == t
  {
    GroupRowsAreGroup(games, teams, g, t);
    FilterMember(GamesWithPrevious(games, teams), GroupKey(g.id, t), b);
  }

  /** A meeting is an earlier same-season game of each of the two teams. */
  lemma MeetingIsPrior(games: seq<GameRow>, g: GameRow, t: int, m: GameRow)
    requires Plays(g, t) && m in Meetings(games, g)
    ensures m in PriorGames(games, g, t) && Plays(m, t)
  {
    FilterMember(games, MeetsMask(g), m);
    FilterMember(games, EarlierSameSeasonMask(t, g), m);
  }

  /** The row that pairs (g, t) with a prior game `o` passes the WHERE of the subquery exactly
      when `o` is a meeting of the two teams of g. */
  lemma CandidateIffMeeting(games: seq<GameRow>, teams: seq<TeamRow>, g: GameRow, t: int, o: GameRow)
    requires ValidDb(games, teams) && g in games && o in games && Plays(g, t)
    requires o in PriorGames(games, g, t)
    ensures SameOppCandidate(g.id)(PrevWith(PerTeamOf(g, t), g, t)(o)) <==> o in Meetings(games, g)
  {
    var k := GameIndex(games, teams, g);
    var l := GameIndex(games, teams, o);
    assert g.homeTeamID != g.awayTeamID && o.homeTeamID != o.awayTeamID;
    FilterMember(games, EarlierSameSeasonMask(t, g), o);
    FilterMember(games, MeetsMask(g), o);
  }

  /** A candidate row of the subquery is a meeting seen from one of the two teams. */
  lemma CandidateIsMeeting(games: seq<GameRow>, teams: seq<TeamRow>, g: GameRow, c: PrevRow)
    requires ValidDb(games, teams) && g in games
    requires c in Filter(GamesWithPrevious(games, teams), SameOppCandidate(g.id))
    ensures Plays(g, c.teamID) && TeamListed(teams, c.teamID)
    ensures exists o :: o in Meetings(games, g) && c == PrevWith(PerTeamOf(g, c.teamID), g, c.teamID)(o)
  {
    var gwp := GamesWithPrevious(games, teams);
    FilterMember(gwp, SameOppCandidate(g.id), c);
    RowOfGame(games, teams, g, c);
    var t := c.teamID;
    var prior := PriorGames(games, g, t);
    if prior != [] {
      assert GroupRows(games, g, t) == Map(prior, PrevWith(PerTeamOf(g, t), g, t));
      var i := MapMember(prior, PrevWith(PerTeamOf(g, t), g, t), c);
      var o := prior[i];
      FilterMember(games, EarlierSameSeasonMask(t, g), o);
      CandidateIffMeeting(games, teams, g, t, o);
      assert o in Meetings(games, g) && c == PrevWith(PerTeamOf(g, t), g, t)(o);
    }
  }

  /** Each meeting, seen from each listed team of g, is a candidate row. */
  lemma MeetingIsCandidate(games: seq<GameRow>, teams: seq<TeamRow>, g: GameRow, t: int, m: GameRow)
    requires ValidDb(games, teams) && g in games && Plays(g, t) && TeamListed(teams, t)
    requires m in Meetings(games, g)
    ensures PrevWith(PerTeamOf(g, t), g, t)(m) in Filter(GamesWithPrevious(games, teams), SameOppCandidate(g.id))
  {
    MeetingIsPrior(games, g, t, m);
    var prior := PriorGames(games, g, t);
    var b := PrevWith(PerTeamOf(g, t), g, t)(m);
    var i :| 0 <= i < |prior| && prior[i] == m;
    assert GroupRows(games, g, t)[i] == b;
    GroupRowInView(games, teams, g, t, b);
    FilterMember(games, MeetsMask(g), m);
    CandidateIffMeeting(games, teams, g, t, m);
    FilterMember(GamesWithPrevious(games, teams), SameOppCandidate(g.id), b);
  }

  /** No meeting, no candidate row. */
  lemma NoMeetingNoCandidate(games: seq<GameRow>, teams: seq<TeamRow>, g: GameRow)
    requires ValidDb(games, teams) && g in games && Meetings(games, g) == []
    ensures Filter(GamesWithPrevious(games, teams), SameOppCandidate(g.id)) == []
  {
    var cs := Filter(GamesWithPrevious(games, teams), SameOppCandidate(g.id));
    if cs != [] {
      CandidateIsMeeting(games, teams, g, cs[0]);
    }
  }

  lemma GamesDistinct(games: seq<GameRow>, teams: seq<TeamRow>)
    requires ValidDb(games, teams)
    ensures Distinct(games)
  {
    forall a, b | 0 <= a < b < |games| ensures games[a] != games[b] {
      assert games[a].id != games[b].id;
    }
  }

  /** Among the prior games of a team, only the latest meeting is on the latest meeting's date. */
  lemma PriorOnMeetingDate(games: seq<GameRow>, teams: seq<TeamRow>, g: GameRow, t: int, m: GameRow)
    requires ValidDb(games, teams) && OneGamePerDay(games) && Plays(g, t)
    requires m in Meetings(games, g)
    ensures var f := PrevWith(PerTeamOf(g, t), g, t);
      Filter(Map(PriorGames(games, g, t), f), MatchupKey(g.id, Some(t), Some(m.datePlayed))) == [f(m)]
  {
    var key := MatchupKey(g.id, Some(t), Some(m.datePlayed));
    var prior := PriorGames(games, g, t);
    var f := PrevWith(PerTeamOf(g, t), g, t);
    var rows := Map(prior, f);
    MeetingIsPrior(games, g, t, m);
    var i :| 0 <= i < |prior| && prior[i] == m;
    GamesDistinct(games, teams);
    FilterDistinct(games, EarlierSameSeasonMask(t, g));
    assert PerTeamOf(g, t).teamID == t;
    FilterMember(games, EarlierSameSeasonMask(t, g), m);
    forall j | 0 <= j < |rows| && j != i
      ensures !key(rows[j])
    {
      var o := prior[j];
      FilterMember(games, EarlierSameSeasonMask(t, g), o);
      assert o != m by {
        if j < i { assert prior[j] != prior[i]; } else { assert prior[i] != prior[j]; }
      }
      assert Plays(o, t) && Plays(m, t);
      assert o.datePlayed != m.datePlayed;
      assert rows[j] == f(o);
    }
    FilterUnique(rows, key, i);
  }

  /** The INNER JOIN back onto `games_with_previous` keeps one row: the latest meeting. */
  lemma LatestMeetingRow(games: seq<GameRow>, teams: seq<TeamRow>, g: GameRow, t: int, m: GameRow)
    requires ValidDb(games, teams) && OneGamePerDay(games) && g in games && Plays(g, t) && TeamListed(teams, t)
    requires m in Meetings(games, g)
    ensures Filter(GamesWithPrevious(games, teams), MatchupKey(g.id, Some(t), Some(m.datePlayed)))
         == [PrevWith(PerTeamOf(g, t), g, t)(m)]
  {
    var gwp := GamesWithPrevious(games, teams);
    var key := MatchupKey(g.id, Some(t), Some(m.datePlayed));
    FilterFilter(gwp, GroupKey(g.id, t), key, key);
    GroupRowsAreGroup(games, teams, g, t);
    MeetingIsPrior(games, g, t, m);
    PriorOnMeetingDate(games, teams, g, t, m);
  }

  /** The join of the chosen row with `games` on its previous game id. */
  lemma PrevGameJoinOne(games: seq<GameRow>, teams: seq<TeamRow>, g: GameRow, b: PrevRow, m: GameRow)
    requires ValidDb(games, teams) && m in games && b.prevGameID == Some(m.id)
    ensures FlatMap([b], PrevGameJoin(games, g.id)) == [PrevSameOppRow(g.id, Some(m.id), m.outcome, m.inOT)]
  {
    var l := GameIndex(games, teams, m);
    GameUnique(games, teams, l);
    FlatMapOne(b, PrevGameJoin(games, g.id));
  }

  /** MAX(prevDatePlayed) over the candidates is the date of a latest meeting. */
  lemma MaxDateIsLatest(games: seq<GameRow>, teams: seq<TeamRow>, g: GameRow) returns (m: GameRow)
    requires ValidDb(games, teams) && TeamListed(teams, g.homeTeamID) && g in games
    requires Meetings(games, g) != []
    ensures m in Meetings(games, g)
    ensures forall o :: o in Meetings(games, g) ==> o.datePlayed <= m.datePlayed
    ensures MaxOpt(Filter(GamesWithPrevious(games, teams), SameOppCandidate(g.id)), PrevDateCol()) == Some(m.datePlayed)
  {
    MeetingDateBelowMax(games, teams, g, Meetings(games, g)[0]);
    m := MaxDateMeeting(games, teams, g);
    forall o | o in Meetings(games, g) ensures o.datePlayed <= m.datePlayed {
      MeetingDateBelowMax(games, teams, g, o);
    }
  }

  /** Every meeting's date is a candidate's prevDatePlayed, so MAX is at least that date. */
  lemma MeetingDateBelowMax(games: seq<GameRow>, teams: seq<TeamRow>, g: GameRow, o: GameRow)
    requires ValidDb(games, teams) && TeamListed(teams, g.homeTeamID) && g in games
    requires o in Meetings(games, g)
    ensures var cs := Filter(GamesWithPrevious(games, teams), SameOppCandidate(g.id));
      MaxOpt(cs, PrevDateCol()).Some? && o.datePlayed <= MaxOpt(cs, PrevDateCol()).value
  {
    var cs := Filter(GamesWithPrevious(games, teams), SameOppCandidate(g.id));
    var h := g.homeTeamID;
    MeetingIsCandidate(games, teams, g, h, o);
    var b := PrevWith(PerTeamOf(g, h), g, h)(o);
    assert PrevDateCol()(b) == Some(o.datePlayed);
    MaxOptUpper(cs, PrevDateCol(), b);
  }

  /** A non-NULL MAX(prevDatePlayed) over the candidates is the date of a meeting. */
  lemma MaxDateMeeting(games: seq<GameRow>, teams: seq<TeamRow>, g: GameRow) returns (m: GameRow)
    requires ValidDb(games, teams) && g in games
    requires MaxOpt(Filter(GamesWithPrevious(games, teams), SameOppCandidate(g.id)), PrevDateCol()).Some?
    ensures m in Meetings(games, g)
    ensures MaxOpt(Filter(GamesWithPrevious(games, teams), SameOppCandidate(g.id)), PrevDateCol()) == Some(m.datePlayed)
  {
    var cs := Filter(GamesWithPrevious(games, teams), SameOppCandidate(g.id));
    var ci := MaxOptWitness(cs, PrevDateCol());
    CandidateIsMeeting(games, teams, g, cs[ci]);
    var t := cs[ci].teamID;
    m :| m in Meetings(games, g) && cs[ci] == PrevWith(PerTeamOf(g, t), g, t)(m);
    assert PrevDateCol()(cs[ci]) == Some(m.datePlayed);
  }

  /** MAX(teamID) over the candidates is one of the two teams of g, and a listed one. */
  lemma MaxTeamIsTeam(games: seq<GameRow>, teams: seq<TeamRow>, g: GameRow) returns (t: int)
    requires ValidDb(games, teams) && TeamListed(teams, g.homeTeamID) && g in games
    requires Meetings(games, g) != []
    ensures Plays(g, t) && TeamListed(teams, t)
    ensures MaxOpt(Filter(GamesWithPrevious(games, teams), SameOppCandidate(g.id)), TeamCol()) == Some(t)
  {
    var cs := Filter(GamesWithPrevious(games, teams), SameOppCandidate(g.id));
    var h := g.homeTeamID;
    MeetingIsCandidate(games, teams, g, h, Meetings(games, g)[0]);
    MaxOptUpper(cs, TeamCol(), PrevWith(PerTeamOf(g, h), g, h)(Meetings(games, g)[0]));
    var ti := MaxOptWitness(cs, TeamCol());
    CandidateIsMeeting(games, teams, g, cs[ti]);
    t := cs[ti].teamID;
  }

  /** The view's rows once both maxima of the subquery are known. */
  lemma PrevSameOppFromMaxima(games: seq<GameRow>, teams: seq<TeamRow>, g: GameRow, t: int, m: GameRow)
    requires ValidDb(games, teams) && OneGamePerDay(games) && g in games && Plays(g, t) && TeamListed(teams, t)
    requires m in Meetings(games, g)
    requires var cs := Filter(GamesWithPrevious(games, teams), SameOppCandidate(g.id));
      cs != [] && MaxOpt(cs, TeamCol()) == Some(t) && MaxOpt(cs, PrevDateCol()) == Some(m.datePlayed)
    ensures GamesPrevSameOpp(games, teams, g.id) == [PrevSameOppRow(g.id, Some(m.id), m.outcome, m.inOT)]
  {
    FilterMember(games, MeetsMask(g), m);
    LatestMeetingRow(games, teams, g, t, m);
    PrevGameJoinOne(games, teams, g, PrevWith(PerTeamOf(g, t), g, t)(m), m);
  }

  /** `games_prev_same_opp` has no row for a game without an earlier meeting of its two teams
      in the season, and otherwise exactly one row: the latest such meeting, with that game's
      own `outcome` and `inOT` columns (not re-oriented to the current home team). */
  lemma PrevSameOppIsLatestMeeting(games: seq<GameRow>, teams: seq<TeamRow>, g: GameRow)
    requires ValidDb(games, teams) && TeamsPresent(games, teams) && OneGamePerDay(games)
    requires g in games
    ensures Meetings(games, g) == [] ==> GamesPrevSameOpp(games, teams, g.id) == []
    ensures Meetings(games, g) != [] ==>
      exists m :: && m in Meetings(games, g)
                  && (forall o :: o in Meetings(games, g) ==> o.datePlayed <= m.datePlayed)
                  && GamesPrevSameOpp(games, teams, g.id) == [PrevSameOppRow(g.id, Some(m.id), m.outcome, m.inOT)]
  {
    if Meetings(games, g) == [] {
      NoMeetingNoCandidate(games, teams, g);
    } else {
      assert TeamListed(teams, g.homeTeamID);
      var m := MaxDateIsLatest(games, teams, g);
      var t := MaxTeamIsTeam(games, teams, g);
      PrevSameOppFromMaxima(games, teams, g, t, m);
    }
  }
}
