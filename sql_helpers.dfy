/** `upsert` of `sql_helpers.py` on a table of records. A record maps column names to values;
    a column it does not name, or names with `NullV`, is NULL. The key columns an upsert is
    given are NOT NULL, so an insert that leaves one NULL fails with an integrity error, and
    SQL `=` is never true of a NULL. */
module SqlHelpers {
  import opened Wrappers
  import opened Seqs

  datatype Value = IntV(i: int) | RealV(r: real) | StrV(s: string) | DateV(day: int) | NullV

  type Record = map<string, Value>

  /** A key column as the caller passes it: a name, or a column object carrying one. */
  datatype KeyColumn = ColumnName(name: string) | ColumnObject(name: string)

  /** The dialect of the engine. */
  datatype Dialect = Postgresql | Sqlite | OtherDialect

  datatype UpsertError =
    | NotNullViolation(column: string)   // IntegrityError raised by the database
    | MissingKey(column: string)         // the ValueError of the fallback path

  /** `[getattr(col, "name", col) for col in primary_key_columns]`. */
  function KeyNames(keys: seq<KeyColumn>): (names: seq<string>)
    ensures |names| == |keys|
    ensures forall k :: k in keys ==> k.name in names
    ensures forall c :: c in names ==> ColumnName(c) in keys || ColumnObject(c) in keys
  {
    if keys == [] then [] else [keys[0].name] + KeyNames(keys[1..])
  }

  /** `values` gives column `c` a value that is not NULL. */
  predicate Given(values: Record, c: string)
  {
    c in values && values[c] != NullV
  }

  /** The SQL value of column `c` of `row`: None for NULL. */
  function Cell(row: Record, c: string): (v: Option<Value>)
    ensures v.None? <==> !Given(row, c)
    ensures v.Some? ==> v.value == row[c]
  {
    if Given(row, c) then Some(row[c]) else None
  }

  /** `row` holds the values `values` gives its key columns: every `key = value` is true. */
  predicate Matches(row: Record, values: Record, keys: seq<string>)
  {
    forall c :: c in keys ==> Given(values, c) && c in row && row[c] == values[c]
  }

  function MatchMask(values: Record, keys: seq<string>): Record -> bool
  {
    (row: Record) => Matches(row, values, keys)
  }

  predicate AnyMatch(rows: seq<Record>, values: Record, keys: seq<string>)
  {
    exists i :: 0 <= i < |rows| && Matches(rows[i], values, keys)
  }

  /** The first row matching the key values: `SELECT ... WHERE ... .first()`. */
  function FirstMatch(rows: seq<Record>, values: Record, keys: seq<string>): (r: Option<nat>)
    ensures r.None? <==> !AnyMatch(rows, values, keys)
    ensures r.Some? ==> r.value < |rows| && Matches(rows[r.value], values, keys)
                        && forall j :: 0 <= j < r.value ==> !Matches(rows[j], values, keys)
  {
    if rows == [] then None
    else if Matches(rows[0], values, keys) then Some(0)
    else
      var r := FirstMatch(rows[1..], values, keys);
      if r.Some? then Some(r.value + 1)
      else
        assert forall i :: 1 <= i < |rows| ==> rows[i] == rows[1..][i - 1];
        None
  }

  /** No two rows agree on the key columns. */
  ghost predicate Unique(rows: seq<Record>, keys: seq<string>)
  {
    forall i, j :: 0 <= i < j < |rows| ==> !Matches(rows[j], rows[i], keys)
  }

  /** The first of `keys` that fails `ok`, if any. */
  function FirstFailing(keys: seq<string>, ok: string -> bool): (r: Option<string>)
    ensures r.None? <==> forall c :: c in keys ==> ok(c)
    ensures r.Some? ==> exists i :: 0 <= i < |keys| && keys[i] == r.value && !ok(keys[i])
                          && forall j :: 0 <= j < i ==> ok(keys[j])
  {
    if keys == [] then None
    else if !ok(keys[0]) then Some(keys[0])
    else
      var r := FirstFailing(keys[1..], ok);
      if r.Some? then
        ghost var i :| 0 <= i < |keys[1..]| && keys[1..][i] == r.value && !ok(keys[1..][i])
                         && forall j :: 0 <= j < i ==> ok(keys[1..][j]);
        assert keys[i + 1] == r.value;
        r
      else r
  }

  /** The first key column `values` leaves NULL: the NOT NULL constraint an insert breaks. */
  function FirstNotGiven(keys: seq<string>, values: Record): Option<string>
  {
    FirstFailing(keys, (c: string) => Given(values, c))
  }

  /** The first key column `values` does not name: the check of the fallback path. */
  function FirstAbsent(keys: seq<string>, values: Record): Option<string>
  {
    FirstFailing(keys, (c: string) => c in values)
  }

  /** The largest integer in column `col` plus one, 1 for none: the id SQLite gives a new row
      of an integer primary key. */
  function NextId(rows: seq<Record>, col: string): (n: int)
    ensures n >= 1
    ensures forall i :: 0 <= i < |rows| && col in rows[i] && rows[i][col].IntV? ==> rows[i][col].i < n
  {
    if rows == [] then 1
    else
      var rest := NextId(rows[1..], col);
      if col in rows[0] && rows[0][col].IntV? && rows[0][col].i >= rest then rows[0][col].i + 1
      else rest
  }

  /** The row an insert of `values` adds: the values, with the generated id if the table has
      one and the values do not give it. */
  function Inserted(rows: seq<Record>, values: Record, autoId: Option<string>): (row: Record)
    ensures forall c :: c in values ==> c in row && row[c] == values[c]
  {
    if autoId.Some? && autoId.value !in values then values[autoId.value := IntV(NextId(rows, autoId.value))]
    else values
  }

  function Assign(row: Record, changes: Record): (r: Record)
    ensures forall c :: c in r <==> c in row || c in changes
    ensures forall c :: c in changes ==> r[c] == changes[c]
    ensures forall c :: c in row && c !in changes ==> r[c] == row[c]
  {
    row + changes
  }

  function UpdateMatching(values: Record, keys: seq<string>, changes: Record): Record -> Record
  {
    (row: Record) => if Matches(row, values, keys) then Assign(row, changes) else row
  }

  /** `UPDATE ... SET changes WHERE` every key column equals its value in `values`. */
  function UpdateWhere(rows: seq<Record>, values: Record, keys: seq<string>, changes: Record): seq<Record>
  {
    Map(rows, UpdateMatching(values, keys, changes))
  }

  /** The non-key entries of `values`. */
  function NonKey(values: Record, keys: seq<string>): (r: Record)
    ensures forall c :: c in r <==> c in values && c !in keys
    ensures forall c :: c in r ==> r[c] == values[c]
  {
    map c | c in values && c !in keys :: values[c]
  }

  /** The table after `upsert` on PostgreSQL or SQLite: `INSERT ... ON CONFLICT (keys) DO UPDATE
      SET values`. */
  function OnConflictUpsert(rows: seq<Record>, values: Record, keys: seq<string>, autoId: Option<string>): Result<seq<Record>, UpsertError>
  {
    var missing := FirstNotGiven(keys, values);
    if missing.Some? then Err(NotNullViolation(missing.value))
    else if AnyMatch(rows, values, keys) then Ok(UpdateWhere(rows, values, keys, values))
    else Ok(rows + [Inserted(rows, values, autoId)])
  }

  /** The table after `upsert` on another dialect: an insert, and on an integrity error an
      update of the non-key columns of the rows matching every key column. */
  function FallbackUpsert(rows: seq<Record>, values: Record, keys: seq<string>, autoId: Option<string>): Result<seq<Record>, UpsertError>
  {
    var absent := FirstAbsent(keys, values);
    if FirstNotGiven(keys, values).None? && !AnyMatch(rows, values, keys) then Ok(rows + [Inserted(rows, values, autoId)])
    else if absent.Some? then Err(MissingKey(absent.value))
    else if NonKey(values, keys) == map[] then Ok(rows)
    else Ok(UpdateWhere(rows, values, keys, NonKey(values, keys)))
  }

  function UpsertResult(dialect: Dialect, rows: seq<Record>, values: Record, keys: seq<KeyColumn>, autoId: Option<string>): Result<seq<Record>, UpsertError>
  {
    if dialect == Postgresql || dialect == Sqlite then OnConflictUpsert(rows, values, KeyNames(keys), autoId)
    else FallbackUpsert(rows, values, KeyNames(keys), autoId)
  }

  // ---------------------------------------------------------------------------------------
  // Properties

  lemma MatchesSymmetric(a: Record, b: Record, values: Record, keys: seq<string>)
    requires Matches(a, values, keys) && Matches(b, values, keys)
    ensures Matches(b, a, keys)
  {
  }

  /** If `a` has the key values and `b` disagrees with `a` on the keys, `b` does not have them. */
  lemma MatchesExcludes(a: Record, b: Record, values: Record, keys: seq<string>)
    requires Matches(a, values, keys) && !Matches(a, b, keys)
    ensures !Matches(b, values, keys)
  {
  }

  /** The first match is the matching row that no earlier row matches. */
  lemma FirstMatchAt(rows: seq<Record>, values: Record, keys: seq<string>, m: nat)
    requires m < |rows| && Matches(rows[m], values, keys)
    requires forall j :: 0 <= j < m ==> !Matches(rows[j], values, keys)
    ensures FirstMatch(rows, values, keys) == Some(m)
  {
    assert AnyMatch(rows, values, keys);
  }

  /** A row matching the key values is unchanged by assigning `values` or only their non-key
      part. */
  lemma AssignMatchingRow(row: Record, values: Record, keys: seq<string>)
    requires Matches(row, values, keys)
    ensures Assign(row, values) == Assign(row, NonKey(values, keys))
    ensures NonKey(values, keys) == map[] ==> Assign(row, values) == row
  {
  }

  /** When every key column is given a value, both paths of `upsert` leave the table in the
      same state. When a key column is absent, both fail naming the first key column that
      is absent or NULL on the first path and the first absent one on the second. When every
      key column is named but one is NULL, the first path fails and the second changes
      nothing, as no row has `key = NULL`. */
  lemma UpsertPathsAgree(rows: seq<Record>, values: Record, keys: seq<string>, autoId: Option<string>)
    ensures (forall c :: c in keys ==> Given(values, c)) ==>
      OnConflictUpsert(rows, values, keys, autoId).Ok? && OnConflictUpsert(rows, values, keys, autoId) == FallbackUpsert(rows, values, keys, autoId)
    ensures (exists c :: c in keys && c !in values) ==>
      OnConflictUpsert(rows, values, keys, autoId).Err? && FallbackUpsert(rows, values, keys, autoId).Err?
    ensures (forall c :: c in keys ==> c in values) && (exists c :: c in keys && !Given(values, c)) ==>
      OnConflictUpsert(rows, values, keys, autoId).Err? && FallbackUpsert(rows, values, keys, autoId) == Ok(rows)
  {
    if forall c :: c in keys ==> Given(values, c) {
      UpsertGivenKeys(rows, values, keys, autoId);
    }
    if exists c :: c in keys && c !in values {
      UpsertAbsentKey(rows, values, keys, autoId);
    }
    if (forall c :: c in keys ==> c in values) && (exists c :: c in keys && !Given(values, c)) {
      UpsertNullKey(rows, values, keys, autoId);
    }
  }

  /** Every key column given: both paths agree. */
  lemma UpsertGivenKeys(rows: seq<Record>, values: Record, keys: seq<string>, autoId: Option<string>)
    requires forall c :: c in keys ==> Given(values, c)
    ensures OnConflictUpsert(rows, values, keys, autoId).Ok?
    ensures OnConflictUpsert(rows, values, keys, autoId) == FallbackUpsert(rows, values, keys, autoId)
  {
    assert FirstNotGiven(keys, values).None? && FirstAbsent(keys, values).None?;
    if AnyMatch(rows, values, keys) {
      var a := UpdateWhere(rows, values, keys, values);
      var b := if NonKey(values, keys) == map[] then rows else UpdateWhere(rows, values, keys, NonKey(values, keys));
      forall i | 0 <= i < |rows| ensures a[i] == b[i] {
        if Matches(rows[i], values, keys) {
          AssignMatchingRow(rows[i], values, keys);
        }
      }
      assert a == b;
    }
  }

  /** A key column absent: both paths fail. */
  lemma UpsertAbsentKey(rows: seq<Record>, values: Record, keys: seq<string>, autoId: Option<string>)
    requires exists c :: c in keys && c !in values
    ensures OnConflictUpsert(rows, values, keys, autoId).Err? && FallbackUpsert(rows, values, keys, autoId).Err?
  {
    var c :| c in keys && c !in values;
    assert !Given(values, c);
    assert FirstNotGiven(keys, values).Some? && FirstAbsent(keys, values).Some?;
  }

  /** Every key column named but one NULL: the first path fails, the second changes nothing. */
  lemma UpsertNullKey(rows: seq<Record>, values: Record, keys: seq<string>, autoId: Option<string>)
    requires forall c :: c in keys ==> c in values
    requires exists c :: c in keys && !Given(values, c)
    ensures OnConflictUpsert(rows, values, keys, autoId).Err? && FallbackUpsert(rows, values, keys, autoId) == Ok(rows)
  {
    var c :| c in keys && !Given(values, c);
    assert FirstNotGiven(keys, values).Some? && FirstAbsent(keys, values).None?;
    assert forall i :: 0 <= i < |rows| ==> !Matches(rows[i], values, keys);
    var b := UpdateWhere(rows, values, keys, NonKey(values, keys));
    assert b == rows;
  }

  /** When every key column is given a value, `upsert` succeeds on every dialect with the
      result of the `ON CONFLICT` statement. */
  lemma KeyedUpsertResult(dialect: Dialect, rows: seq<Record>, values: Record, keys: seq<KeyColumn>, autoId: Option<string>)
    requires forall c :: c in KeyNames(keys) ==> Given(values, c)
    ensures UpsertResult(dialect, rows, values, keys, autoId) == OnConflictUpsert(rows, values, KeyNames(keys), autoId)
    ensures UpsertResult(dialect, rows, values, keys, autoId).Ok?
  {
    UpsertPathsAgree(rows, values, KeyNames(keys), autoId);
  }

  /** After an upsert whose key columns are all given, on a table with unique keys: the keys
      stay unique, exactly one row has the given key values, it holds every given value, and
      every other row is unchanged. */
  lemma UpsertKeyed(rows: seq<Record>, values: Record, keys: seq<string>, autoId: Option<string>) returns (m: nat)
    requires Unique(rows, keys)
    requires forall c :: c in keys ==> Given(values, c)
    ensures OnConflictUpsert(rows, values, keys, autoId).Ok?
    ensures var after := OnConflictUpsert(rows, values, keys, autoId).value;
      && Unique(after, keys)
      && m < |after| && Matches(after[m], values, keys)
      && (forall c :: c in values ==> c in after[m] && after[m][c] == values[c])
      && (forall i :: 0 <= i < |after| && i != m ==> !Matches(after[i], values, keys))
      && (forall i :: 0 <= i < |rows| && i != m ==> i < |after| && after[i] == rows[i])
      && |after| == |rows| + (if AnyMatch(rows, values, keys) then 0 else 1)
      && (m == |rows| <==> !AnyMatch(rows, values, keys))
      && (m < |rows| ==> Matches(rows[m], values, keys))
  {
    if AnyMatch(rows, values, keys) {
      var k :| 0 <= k < |rows| && Matches(rows[k], values, keys);
      m := k;
      UpdatedKeyed(rows, values, keys, k);
    } else {
      m := |rows|;
      var after := rows + [Inserted(rows, values, autoId)];
      forall i, j | 0 <= i < j < |after| ensures !Matches(after[j], after[i], keys) {
        if j == |rows| {
          if Matches(after[j], after[i], keys) {
            assert Matches(rows[i], values, keys);
            assert false;
          }
        }
      }
    }
  }

  lemma UpdatedKeyed(rows: seq<Record>, values: Record, keys: seq<string>, k: nat)
    requires Unique(rows, keys)
    requires k < |rows| && Matches(rows[k], values, keys)
    ensures var after := UpdateWhere(rows, values, keys, values);
      && |after| == |rows|
      && after[k] == Assign(rows[k], values)
      && (forall i :: 0 <= i < |rows| && i != k ==> after[i] == rows[i] && !Matches(rows[i], values, keys))
      && Unique(after, keys)
  {
    var after := UpdateWhere(rows, values, keys, values);
    forall i | 0 <= i < |rows| && i != k ensures !Matches(rows[i], values, keys) {
      if Matches(rows[i], values, keys) {
        if i < k {
          MatchesSymmetric(rows[i], rows[k], values, keys);
        } else {
          MatchesSymmetric(rows[k], rows[i], values, keys);
        }
        assert false;
      }
    }
    forall i, j | 0 <= i < j < |after| ensures !Matches(after[j], after[i], keys) {
      if Matches(after[j], after[i], keys) {
        assert Matches(rows[j], rows[i], keys) by {
          forall c | c in keys ensures Given(rows[i], c) && c in rows[j] && rows[j][c] == rows[i][c] {
          }
        }
        assert false;
      }
    }
  }

  /** On the fallback path, a conflicting upsert that leaves out a key column raises
      ValueError naming the first key column it leaves out, and a conflicting upsert that
      gives only key columns changes nothing. */
  lemma FallbackEdgeCases(rows: seq<Record>, values: Record, keys: seq<string>, autoId: Option<string>)
    ensures (exists c :: c in keys && c !in values) ==>
      exists i :: 0 <= i < |keys| && FallbackUpsert(rows, values, keys, autoId) == Err(MissingKey(keys[i]))
                  && keys[i] !in values && forall j :: 0 <= j < i ==> keys[j] in values
    ensures (forall c :: c in keys ==> c in values) && (forall c :: c in values ==> c in keys)
            && !(FirstNotGiven(keys, values).None? && !AnyMatch(rows, values, keys)) ==>
      FallbackUpsert(rows, values, keys, autoId) == Ok(rows)
  {
    if (forall c :: c in keys ==> c in values) && (forall c :: c in values ==> c in keys) {
      assert NonKey(values, keys) == map[];
    }
  }

  /** On the fallback path, a conflict updates only non-key columns, and only of the rows
      matching every key column. */
  lemma FallbackUpdatesNonKey(rows: seq<Record>, values: Record, keys: seq<string>, autoId: Option<string>)
    requires forall c :: c in keys ==> Given(values, c)
    requires AnyMatch(rows, values, keys)
    ensures var r := FallbackUpsert(rows, values, keys, autoId);
      && r.Ok? && |r.value| == |rows|
      && (forall i :: 0 <= i < |rows| && !Matches(rows[i], values, keys) ==> r.value[i] == rows[i])
      && (forall i, c :: 0 <= i < |rows| && Matches(rows[i], values, keys) && c in values && c !in keys ==> c in r.value[i] && r.value[i][c] == values[c])
      && (forall i, c :: 0 <= i < |rows| && (c in keys || c !in values) && c in rows[i] ==> c in r.value[i] && r.value[i][c] == rows[i][c])
  {
  }

  /** Column objects and column names name the same key columns. */
  lemma KeyNamesNormalise(names: seq<string>)
    ensures KeyNames(Map(names, (n: string) => ColumnName(n))) == names
    ensures KeyNames(Map(names, (n: string) => ColumnObject(n))) == names
  {
    var byName := Map(names, (n: string) => ColumnName(n));
    var byObject := Map(names, (n: string) => ColumnObject(n));
    KeyNamesPointwise(byName);
    KeyNamesPointwise(byObject);
  }

  lemma {:induction false} KeyNamesPointwise(keys: seq<KeyColumn>)
    ensures forall i :: 0 <= i < |keys| ==> KeyNames(keys)[i] == keys[i].name
  {
    if keys != [] {
      KeyNamesPointwise(keys[1..]);
    }
  }

  // ---------------------------------------------------------------------------------------
  // The table

  class Table {
    /** The generated integer primary key column, if the table has one. */
    const autoId: Option<string>
    var rows: seq<Record>

    constructor(autoId: Option<string>, rows: seq<Record>)
      ensures this.autoId == autoId && this.rows == rows
    {
      this.autoId := autoId;
      this.rows := rows;
    }

    /** `UPDATE ... SET changes WHERE` every `column = value` condition holds. */
    static function UpdateWhereAll(conditions: seq<(string, Value)>, changes: Record): Record -> Record
    {
      (row: Record) =>
        if forall k :: 0 <= k < |conditions| ==> conditions[k].1 != NullV && conditions[k].0 in row && row[conditions[k].0] == conditions[k].1
        then Assign(row, changes) else row
    }

    /** `upsert(engine, table, values, primary_key_columns)`. */
    method Upsert(dialect: Dialect, values: Record, keyColumns: seq<KeyColumn>) returns (r: Result<(), UpsertError>)
      modifies this
      ensures var expected := UpsertResult(dialect, old(rows), values, keyColumns, autoId);
        && (r.Ok? <==> expected.Ok?)
        && (r.Ok? ==> rows == expected.value)
        && (r.Err? ==> rows == old(rows) && r.error == expected.error)
    {
      var pkNames := KeyNames(keyColumns);
      if dialect == Postgresql || dialect == Sqlite {
        var missing := FirstNotGiven(pkNames, values);
        if missing.Some? {
          return Err(NotNullViolation(missing.value));
        }
        if AnyMatch(rows, values, pkNames) {
          rows := UpdateWhere(rows, values, pkNames, values);
        } else {
          rows := rows + [Inserted(rows, values, autoId)];
        }
        return Ok(());
      }
      if FirstNotGiven(pkNames, values).None? && !AnyMatch(rows, values, pkNames) {
        rows := rows + [Inserted(rows, values, autoId)];
        return Ok(());
      }
      r := UpdateAfterConflict(values, pkNames);
    }

    /** The `except IntegrityError` branch of the fallback path: the key conditions are built
        one key column at a time, then the non-key columns are updated. */
    method UpdateAfterConflict(values: Record, pkNames: seq<string>) returns (r: Result<(), UpsertError>)
      modifies this
      ensures r.Err? <==> FirstAbsent(pkNames, values).Some?
      ensures r.Err? ==> rows == old(rows) && r.error == MissingKey(FirstAbsent(pkNames, values).value)
      ensures r.Ok? && NonKey(values, pkNames) == map[] ==> rows == old(rows)
      ensures r.Ok? && NonKey(values, pkNames) != map[] ==> rows == UpdateWhere(old(rows), values, pkNames, NonKey(values, pkNames))
    {
      var conditions: seq<(string, Value)> := [];
      var i := 0;
      while i < |pkNames|
        invariant 0 <= i <= |pkNames|
        invariant forall j :: 0 <= j < i ==> pkNames[j] in values
        invariant |conditions| == i
        invariant forall j :: 0 <= j < i ==> conditions[j] == (pkNames[j], values[pkNames[j]])
      {
        var pk := pkNames[i];
        if pk !in values {
          FirstFailingIsFirst(pkNames, (c: string) => c in values, i);
          return Err(MissingKey(pk));
        }
        conditions := conditions + [(pk, values[pk])];
        i := i + 1;
      }
      var updateValues := map k | k in values && k !in pkNames :: values[k];
      if updateValues == map[] {
        return Ok(());
      }
      assert updateValues == NonKey(values, pkNames);
      forall row ensures UpdateWhereAll(conditions, updateValues)(row) == UpdateMatching(values, pkNames, updateValues)(row) {
        ConditionsMatch(row, values, pkNames, conditions);
      }
      rows := Map(rows, UpdateWhereAll(conditions, updateValues));
      assert rows == UpdateWhere(old(rows), values, pkNames, updateValues);
      return Ok(());
    }
  }

  lemma {:induction false} FirstFailingIsFirst(keys: seq<string>, ok: string -> bool, i: nat)
    requires i < |keys| && !ok(keys[i])
    requires forall j :: 0 <= j < i ==> ok(keys[j])
    ensures FirstFailing(keys, ok) == Some(keys[i])
  {
    if i > 0 {
      FirstFailingIsFirst(keys[1..], ok, i - 1);
    }
  }

  lemma ConditionsMatch(row: Record, values: Record, keys: seq<string>, conditions: seq<(string, Value)>)
    requires |conditions| == |keys|
    requires forall j :: 0 <= j < |keys| ==> keys[j] in values && conditions[j] == (keys[j], values[keys[j]])
    ensures (forall k :: 0 <= k < |conditions| ==> conditions[k].1 != NullV && conditions[k].0 in row && row[conditions[k].0] == conditions[k].1)
            <==> Matches(row, values, keys)
  {
    if forall k :: 0 <= k < |conditions| ==> conditions[k].1 != NullV && conditions[k].0 in row && row[conditions[k].0] == conditions[k].1 {
      forall c | c in keys ensures Given(values, c) && c in row && row[c] == values[c] {
        var j :| 0 <= j < |keys| && keys[j] == c;
        assert conditions[j].0 == c;
      }
    }
  }
}
