/** The domain records of `sport.py`: a game read from one line of a games file, its derived
    `completed` / `outcome` / `in_ot` properties, and the `TeamService` lookup maps. */
module Sport {
  import opened Wrappers
  import opened Utils

  /** The attributes `Game.from_csv_line` sets, all still strings as read. */
  datatype CsvGame = CsvGame(
    apiId: string,
    seasonId: string,
    homeAbbrev: string,
    awayAbbrev: string,
    date: string,
    datePlayed: string,
    dayOfYearPlayed: string,
    yearPlayed: string,
    timePlayed: string,
    homeTeamGoals: string,
    awayTeamGoals: string,
    gameTypeId: string,
    lastPeriodTypeId: string)

  /** Reading a field past the end of the split line raises IndexError. */
  datatype CsvError = IndexError(fieldCount: nat)

  /** `Game.from_csv_line`: fields 3, 5 and 6 make the game; 0, 1 and 6..13 fill the rest;
      fields 2 and 4 (the teams' numeric ids) are not read. */
  function FromCsvLine(line: string): (r: Result<CsvGame, CsvError>)
    ensures r.Err? <==> |SplitCsvLine(line)| < 14
  {
    var f := SplitCsvLine(line);
    if |f| < 14 then Err(IndexError(|f|))
    else Ok(CsvGame(f[0], f[1], f[3], f[5], f[6], f[6], f[7], f[8], f[9], f[10], f[11], f[12], f[13]))
  }

  /** `Game.__eq__`: two games are equal when home, away and date agree. */
  predicate SameGame(a: CsvGame, b: CsvGame)
  {
    a.homeAbbrev == b.homeAbbrev && a.awayAbbrev == b.awayAbbrev && a.date == b.date
  }

  /** `Game.completed`: 1 when both goal fields are non-empty strings. */
  function Completed(g: CsvGame): (c: int)
    ensures c == 1 <==> g.homeTeamGoals != [] && g.awayTeamGoals != []
    ensures c == 0 || c == 1
  {
    if g.homeTeamGoals != [] && g.awayTeamGoals != [] then 1 else 0
  }

  /** Python `a < b` on strings: code-point lexicographic order. */
  predicate LexLess(a: string, b: string)
  {
    if a == [] then b != []
    else if b == [] then false
    else if a[0] != b[0] then a[0] < b[0]
    else LexLess(a[1..], b[1..])
  }

  /** `Game.outcome` as written: the goal strings are compared as strings, so "10" < "9". */
  function OutcomeAsWritten(g: CsvGame): (r: int)
    ensures r == 1 <==> Completed(g) == 1 && LexLess(g.awayTeamGoals, g.homeTeamGoals)
    ensures r == 0 <==> Completed(g) == 1 && LexLess(g.homeTeamGoals, g.awayTeamGoals)
    ensures r == -1 || r == 0 || r == 1
  {
    LexAsymmetric(g.homeTeamGoals, g.awayTeamGoals);
    if Completed(g) == 0 then -1
    else if LexLess(g.awayTeamGoals, g.homeTeamGoals) then 1
    else if LexLess(g.homeTeamGoals, g.awayTeamGoals) then 0
    else -1
  }

  /** A goal field as a number: a non-empty string of decimal digits. */
  function ParseGoals(s: string): (r: Option<nat>)
    ensures r.Some? <==> s != [] && AllDigits(s)
  {
    if s != [] && AllDigits(s) then Some(DigitsValue(s)) else None
  }

  /** `Game.outcome` as evidently intended: 1 for a home win and 0 for an away win by the
      number of goals, -1 for an unfinished game, a tie, or a goal field that is not a number. */
  function Outcome(g: CsvGame): (r: int)
    ensures r == 1 <==> Completed(g) == 1 && ParseGoals(g.homeTeamGoals).Some?
                        && ParseGoals(g.awayTeamGoals).Some?
                        && ParseGoals(g.homeTeamGoals).value > ParseGoals(g.awayTeamGoals).value
    ensures r == 0 <==> Completed(g) == 1 && ParseGoals(g.homeTeamGoals).Some?
                        && ParseGoals(g.awayTeamGoals).Some?
                        && ParseGoals(g.homeTeamGoals).value < ParseGoals(g.awayTeamGoals).value
    ensures r == -1 || r == 0 || r == 1
  {
    if Completed(g) == 0 then -1
    else
      match (ParseGoals(g.homeTeamGoals), ParseGoals(g.awayTeamGoals))
      case (Some(h), Some(a)) => if h > a then 1 else if h < a then 0 else -1
      case _ => -1
  }

  /** `Game.in_ot` as written: it tests `game_type_id` (field 12, the numeric game type the
      downloader writes) against 'REG', so a completed game is always reported as overtime. */
  function InOTAsWritten(g: CsvGame): (r: int)
    ensures r == -1 <==> Completed(g) == 0
    ensures r == 0 <==> Completed(g) == 1 && g.gameTypeId == "REG"
    ensures r == 1 <==> Completed(g) == 1 && g.gameTypeId != "REG"
  {
    if Completed(g) == 0 then -1 else if g.gameTypeId == "REG" then 0 else 1
  }

  /** `Game.in_ot` as evidently intended: the last period type (field 13) decides. */
  function InOT(g: CsvGame): (r: int)
    ensures r == -1 <==> Completed(g) == 0
    ensures r == 0 <==> Completed(g) == 1 && g.lastPeriodTypeId == "REG"
    ensures r == 1 <==> Completed(g) == 1 && g.lastPeriodTypeId != "REG"
  {
    if Completed(g) == 0 then -1 else if g.lastPeriodTypeId == "REG" then 0 else 1
  }

  // ---------------------------------------------------------------------------------------
  // Reading a written line

  /** The line format the downloader writes: fields separated by ", ". */
  function WriteCsvLine(fields: seq<string>): string
    requires |fields| >= 1
  {
    Join([fields[0]] + seq(|fields| - 1, i requires 0 <= i < |fields| - 1 => " " + fields[i + 1]), ',')
  }

  /** Reading back a written 14-field line recovers every field in its positional attribute,
      as long as no field holds a comma or surrounding whitespace. */
  lemma FromCsvLineRoundTrip(fields: seq<string>)
    requires |fields| == 14
    requires forall i :: 0 <= i < 14 ==> ',' !in fields[i] && Trimmed(fields[i])
    ensures FromCsvLine(WriteCsvLine(fields))
      == Ok(CsvGame(fields[0], fields[1], fields[3], fields[5], fields[6], fields[6], fields[7],
                    fields[8], fields[9], fields[10], fields[11], fields[12], fields[13]))
  {
    var parts := [fields[0]] + seq(13, i requires 0 <= i < 13 => " " + fields[i + 1]);
    assert forall i :: 0 <= i < 14 ==> ',' !in parts[i] by {
      forall i | 0 <= i < 14 ensures ',' !in parts[i] {
        if i > 0 {
          assert parts[i] == " " + fields[i];
        }
      }
    }
    JoinSplit(parts, ',');
    var f := SplitCsvLine(WriteCsvLine(fields));
    assert |f| == 14;
    forall i | 0 <= i < 14 ensures f[i] == fields[i] {
      if i == 0 {
        StripTrimmed(fields[0]);
      } else {
        assert parts[i] == " " + fields[i];
        StripAfterSpace(fields[i]);
      }
    }
  }

  /** A line with fewer than 13 commas is too short and raises IndexError. */
  lemma FromCsvLineShort(line: string)
    requires CountChar(line, ',') < 13
    ensures FromCsvLine(line).Err?
  {
    SplitCsvLineFields(line);
  }

  // ---------------------------------------------------------------------------------------
  // Game equality

  /** `__eq__` is an equivalence relation. */
  lemma SameGameEquivalence(a: CsvGame, b: CsvGame, c: CsvGame)
    ensures SameGame(a, a)
    ensures SameGame(a, b) ==> SameGame(b, a)
    ensures SameGame(a, b) && SameGame(b, c) ==> SameGame(a, c)
  {
  }

  /** A re-read line with a new score, game type or id is still the same game. */
  lemma SameGameIgnoresResults(g: CsvGame, apiId: string, hg: string, ag: string, last: string)
    ensures SameGame(g, g.(apiId := apiId, homeTeamGoals := hg, awayTeamGoals := ag,
                             lastPeriodTypeId := last))
  {
  }

  // ---------------------------------------------------------------------------------------
  // Outcome

  lemma {:induction false} LexAsymmetric(a: string, b: string)
    ensures !(LexLess(a, b) && LexLess(b, a))
    ensures LexLess(a, b) ==> a != b
  {
    if a != [] && b != [] && a[0] == b[0] {
      LexAsymmetric(a[1..], b[1..]);
    }
  }

  /** String order is total: two different strings are ordered one way or the other. */
  lemma {:induction false} LexTotal(a: string, b: string)
    ensures a == b || LexLess(a, b) || LexLess(b, a)
  {
    if a != [] && b != [] && a[0] == b[0] {
      LexTotal(a[1..], b[1..]);
      if a[1..] == b[1..] {
        assert a == [a[0]] + a[1..] && b == [b[0]] + b[1..];
      }
    }
  }

  /** As written, a completed game is -1 exactly when the two goal strings are equal. */
  lemma OutcomeAsWrittenTie(g: CsvGame)
    requires Completed(g) == 1
    ensures OutcomeAsWritten(g) == -1 <==> g.homeTeamGoals == g.awayTeamGoals
  {
    LexTotal(g.homeTeamGoals, g.awayTeamGoals);
    LexAsymmetric(g.homeTeamGoals, g.awayTeamGoals);
  }

  /** The value of a digit string read from the front: leading digit times its weight. */
  lemma {:induction false} DigitsValueFront(s: string)
    requires s != [] && AllDigits(s)
    ensures DigitsValue(s) == (s[0] as int - '0' as int) * Pow10(|s| - 1) + DigitsValue(s[1..])
  {
    if |s| > 1 {
      var init, rest := s[..|s| - 1], s[1..];
      assert AllDigits(init) && AllDigits(rest);
      DigitsValueFront(init);
      assert init[1..] == rest[..|rest| - 1];
      var lead, last := s[0] as int - '0' as int, s[|s| - 1] as int - '0' as int;
      assert DigitsValue(s) == DigitsValue(init) * 10 + last;
      FrontDigitStep(lead, Pow10(|s| - 2), DigitsValue(rest[..|rest| - 1]), last,
        DigitsValue(s), DigitsValue(init), DigitsValue(rest), Pow10(|s| - 1));
    } else {
      assert s[..0] == [];
      assert s[1..] == [];
    }
  }

  /** The arithmetic step of `DigitsValueFront`. */
  lemma FrontDigitStep(lead: int, p: int, x: int, last: int, whole: int, init: int, rest: int, weight: int)
    requires init == lead * p + x && rest == x * 10 + last && whole == init * 10 + last && weight == 10 * p
    ensures whole == lead * weight + rest
  {
  }

  /** For digit strings of the same length, string order is number order. */
  lemma {:induction false} LexLessIsNumericLess(a: string, b: string)
    requires |a| == |b| && AllDigits(a) && AllDigits(b)
    ensures LexLess(a, b) <==> DigitsValue(a) < DigitsValue(b)
  {
    if a != [] {
      DigitsValueFront(a);
      DigitsValueFront(b);
      DigitsValueBound(a[1..]);
      DigitsValueBound(b[1..]);
      var p := Pow10(|a| - 1);
      var da, db := a[0] as int - '0' as int, b[0] as int - '0' as int;
      if a[0] < b[0] {
        LeadingDigitDecides(da, db, p, DigitsValue(a[1..]), DigitsValue(b[1..]));
      } else if a[0] > b[0] {
        LeadingDigitDecides(db, da, p, DigitsValue(b[1..]), DigitsValue(a[1..]));
      } else {
        LexLessIsNumericLess(a[1..], b[1..]);
      }
    }
  }

  lemma LeadingDigitDecides(da: int, db: int, p: int, x: int, y: int)
    requires 0 <= da < db && 0 <= x < p && 0 <= y
    ensures da * p + x < db * p + y
  {
    assert (da + 1) * p <= db * p;
  }

  /** When both scores have the same number of digits the string comparison is harmless:
      the outcome as written agrees with the intended one. */
  lemma OutcomeAgreesOnEqualWidth(g: CsvGame)
    requires g.homeTeamGoals != [] && AllDigits(g.homeTeamGoals) && AllDigits(g.awayTeamGoals)
    requires |g.homeTeamGoals| == |g.awayTeamGoals|
    ensures OutcomeAsWritten(g) == Outcome(g)
  {
    LexLessIsNumericLess(g.homeTeamGoals, g.awayTeamGoals);
    LexLessIsNumericLess(g.awayTeamGoals, g.homeTeamGoals);
  }

  /** A game won 10-9 at home is recorded, as written, as an away win. */
  lemma OutcomeAsWrittenTenNine()
    ensures var g := CsvGame("2023020001", "20232024", "TOR", "MTL", "2023-10-11", "2023-10-11",
                             "284", "2023", "23:00:00", "10", "9", "2", "REG");
      OutcomeAsWritten(g) == 0 && Outcome(g) == 1
  {
    var g := CsvGame("2023020001", "20232024", "TOR", "MTL", "2023-10-11", "2023-10-11",
                     "284", "2023", "23:00:00", "10", "9", "2", "REG");
    assert LexLess("10", "9");
    assert DigitsValue("10") == 10 by {
      assert "10"[..1] == "1";
      assert "1"[..0] == "";
    }
    assert DigitsValue("9") == 9 by {
      assert "9"[..0] == "";
    }
  }

  // ---------------------------------------------------------------------------------------
  // Overtime

  /** A numeric game type, which is what the downloader writes in field 12, is never 'REG':
      as written every completed game counts as overtime. */
  lemma InOTAsWrittenAlwaysOvertime(g: CsvGame)
    requires Completed(g) == 1 && AllDigits(g.gameTypeId)
    ensures InOTAsWritten(g) == 1
  {
    assert !AllDigits("REG") by {
      assert !IsDigit("REG"[0]);
    }
  }

  /** A regular-season game decided in regulation: overtime as written, not as intended. */
  lemma InOTAsWrittenRegulationGame()
    ensures var g := CsvGame("2023020001", "20232024", "TOR", "MTL", "2023-10-11", "2023-10-11",
                             "284", "2023", "23:00:00", "3", "2", "2", "REG");
      InOTAsWritten(g) == 1 && InOT(g) == 0
  {
  }

  // ---------------------------------------------------------------------------------------
  // TeamService

  /** `abbrev_id_dict` after `build_abbrev_id_dicts` has run over `rows` (id, abbrev),
      starting from `m`: later rows overwrite earlier ones. */
  function AbbrevIdMap(m: map<string, int>, rows: seq<(int, string)>): map<string, int>
  {
    if rows == [] then m
    else AbbrevIdMap(m, rows[..|rows| - 1])[rows[|rows| - 1].1 := rows[|rows| - 1].0]
  }

  /** `id_abbrev_dict` after `build_abbrev_id_dicts` has run over `rows`, starting from `m`. */
  function IdAbbrevMap(m: map<int, string>, rows: seq<(int, string)>): map<int, string>
  {
    if rows == [] then m
    else IdAbbrevMap(m, rows[..|rows| - 1])[rows[|rows| - 1].0 := rows[|rows| - 1].1]
  }

  /** The `teams` table holds each id and each abbreviation once (both are keys). */
  predicate DistinctRows(rows: seq<(int, string)>)
  {
    forall i, j :: 0 <= i < j < |rows| ==> rows[i].0 != rows[j].0 && rows[i].1 != rows[j].1
  }

  /** Built from empty maps over rows with distinct ids and abbreviations, the two maps hold
      exactly the rows read, and each is the inverse of the other. */
  lemma {:induction false} BuildIsInverse(rows: seq<(int, string)>)
    requires DistinctRows(rows)
    ensures var a, b := AbbrevIdMap(map[], rows), IdAbbrevMap(map[], rows);
      && (forall k :: 0 <= k < |rows| ==> rows[k].1 in a && a[rows[k].1] == rows[k].0)
      && (forall k :: 0 <= k < |rows| ==> rows[k].0 in b && b[rows[k].0] == rows[k].1)
      && (forall ab :: ab in a ==> a[ab] in b && b[a[ab]] == ab)
      && (forall id :: id in b ==> b[id] in a && a[b[id]] == id)
  {
    if rows != [] {
      var init := rows[..|rows| - 1];
      assert DistinctRows(init);
      BuildIsInverse(init);
      BuildDomain(init);
      var last := rows[|rows| - 1];
      forall k | 0 <= k < |init| ensures init[k].0 != last.0 && init[k].1 != last.1 {
        assert init[k] == rows[k];
      }
      forall k | 0 <= k < |rows| ensures rows[k] == (if k < |init| then init[k] else last) {
      }
    }
  }

  /** The keys of the built maps are exactly the abbreviations and ids read. */
  lemma {:induction false} BuildDomain(rows: seq<(int, string)>)
    ensures forall ab :: ab in AbbrevIdMap(map[], rows) <==> exists k :: 0 <= k < |rows| && rows[k].1 == ab
    ensures forall id :: id in IdAbbrevMap(map[], rows) <==> exists k :: 0 <= k < |rows| && rows[k].0 == id
  {
    if rows != [] {
      var init := rows[..|rows| - 1];
      BuildDomain(init);
      forall k | 0 <= k < |init| ensures init[k] == rows[k] {
      }
    }
  }

  /** `TeamService`: two lookup maps filled from the `teams` table and read through
      defaultdicts, so a missing key is inserted with its sentinel (-1 or 'N/A'). */
  class TeamService {
    /** `abbrev_id_dict`: abbreviation to id, default -1. */
    var abbrevToId: map<string, int>
    /** `id_abbrev_dict`: id to abbreviation, default 'N/A'. */
    var idToAbbrev: map<int, string>
    /** The (id, nameAbbrev) rows `SELECT id, nameAbbrev FROM teams` returns. */
    const teamsTable: seq<(int, string)>

    constructor(teamsTable: seq<(int, string)>)
      ensures this.teamsTable == teamsTable
      ensures abbrevToId == map[] && idToAbbrev == map[]
    {
      this.teamsTable := teamsTable;
      abbrevToId := map[];
      idToAbbrev := map[];
    }

    /** `build_abbrev_id_dicts`: one pass over the table rows, writing both maps. */
    method BuildAbbrevIdDicts()
      modifies this
      ensures abbrevToId == AbbrevIdMap(old(abbrevToId), teamsTable)
      ensures idToAbbrev == IdAbbrevMap(old(idToAbbrev), teamsTable)
    {
      var i := 0;
      while i < |teamsTable|
        invariant 0 <= i <= |teamsTable|
        invariant abbrevToId == AbbrevIdMap(old(abbrevToId), teamsTable[..i])
        invariant idToAbbrev == IdAbbrevMap(old(idToAbbrev), teamsTable[..i])
      {
        var (teamId, abbrev) := teamsTable[i];
        abbrevToId := abbrevToId[abbrev := teamId];
        idToAbbrev := idToAbbrev[teamId := abbrev];
        assert teamsTable[..i + 1][..i] == teamsTable[..i];
        i := i + 1;
      }
      assert teamsTable[..i] == teamsTable;
    }

    /** `id_from_abbrev`: the cached id, or -1, which the defaultdict then stores. */
    method IdFromAbbrev(abbrev: string) returns (teamId: int)
      modifies this
      ensures teamId == (if abbrev in old(abbrevToId) then old(abbrevToId)[abbrev] else -1)
      ensures abbrevToId == old(abbrevToId)[abbrev := teamId]
      ensures idToAbbrev == old(idToAbbrev)
    {
      if abbrev !in abbrevToId {
        abbrevToId := abbrevToId[abbrev := -1];
      }
      teamId := abbrevToId[abbrev];
    }

    /** `abbrev_from_id`: rebuilds both maps first when the abbreviation map is empty (any
        entry, even a stored -1 sentinel, prevents the rebuild), then reads with default 'N/A'. */
    method AbbrevFromId(teamId: int) returns (abbrev: string)
      modifies this
      ensures var built := if old(abbrevToId) == map[] then IdAbbrevMap(old(idToAbbrev), teamsTable)
                           else old(idToAbbrev);
        && abbrev == (if teamId in built then built[teamId] else "N/A")
        && idToAbbrev == built[teamId := abbrev]
      ensures abbrevToId == (if old(abbrevToId) == map[] then AbbrevIdMap(map[], teamsTable)
                             else old(abbrevToId))
    {
      if abbrevToId == map[] {
        BuildAbbrevIdDicts();
      }
      if teamId !in idToAbbrev {
        idToAbbrev := idToAbbrev[teamId := "N/A"];
      }
      abbrev := idToAbbrev[teamId];
    }
  }
}
