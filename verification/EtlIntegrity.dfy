/** What every attempt at an import keeps: keys, column constraints, foreign keys and unique columns
    of all nine tables. */
module EtlIntegrity {
  import opened Wrappers
  import opened EtlTables
  import opened EtlRuns
  import Decimal

  // ---- Numbers

  /** A printed number is read back. Outside 64 bits ParseInt refuses it, and Atoi, whose error is
      ignored, yields the bound that it exceeds. */
  lemma NumberRoundTrip(n: int)
    ensures var s := Decimal.PrintInt(n);
      && ReadInt(s) == Some(n)
      && ParseInt64(s) == (if -MAX_INT64 - 1 <= n <= MAX_INT64 then Some(n) else None)
      && Atoi(s) == (if n > MAX_INT64 then MAX_INT64 else if n < -MAX_INT64 - 1 then -MAX_INT64 - 1 else n)
  {
    var s := Decimal.PrintInt(n);
    if n < 0 {
      Decimal.PrintRoundTrip(-n);
      assert s[0] == '-' && s[1..] == Decimal.Print(-n);
    } else {
      Decimal.PrintRoundTrip(n);
      assert Decimal.IsDigit(s[0]);
    }
  }

  /** A step is stored as 0 exactly when its text is malformed, empty included, or reads as 0; it is
      never NULL, so the default of 1 does not apply. */
  lemma StepNeverDefaults(cfg: Config, name: string, row: Row)
    ensures var v := CellOf(cfg, StepNumber(name), row);
      && v != Some(Null)
      && (v == Some(Int(0)) <==> ReadInt(Str(row, name)) == None || ReadInt(Str(row, name)) == Some(0))
  {
  }

  // ---- Columns

  /** The type and the constraint of a column. */
  predicate Fits(c: Column, v: Value) {
    match c
    case Number(_, required) => (v.Int? && -MAX_INT64 - 1 <= v.i <= MAX_INT64) || (v == Null && !required)
    case Instant(_, orNow) => v.Time? || v == if orNow then Now else Null
    case Words(_, _, limit) => v.Text? && Within(v.s, limit)
    case Encrypted(_, aad) => v == Null || (v.Sealed? && v.plain != "" && v.aad == aad)
    case Toggle(_, _) => v.Bool?
    case StepNumber(_) => v.Int? && -MAX_INT32 - 1 <= v.i <= MAX_INT32
    case NonEmpty(_) => v.Text? && v.s != ""
  }

  predicate HasFit(columns: seq<Column>, name: string, v: Value) {
    exists c :: c in columns && c.name == name && Fits(c, v)
  }

  /** A record has every column, and every field fits a column of that name. */
  predicate Conforms(columns: seq<Column>, rec: Record) {
    && (forall c :: c in columns ==> c.name in rec)
    && (forall name :: name in rec ==> HasFit(columns, name, rec[name]))
  }

  lemma CellFits(cfg: Config, c: Column, row: Row)
    requires CellOf(cfg, c, row).Some?
    ensures Fits(c, CellOf(cfg, c, row).value)
  {
  }

  lemma MoreColumns(columns: seq<Column>, n: nat, name: string, v: Value)
    requires n <= |columns| && HasFit(columns[..n], name, v)
    ensures HasFit(columns, name, v)
  {
    var c :| c in columns[..n] && c.name == name && Fits(c, v);
    assert c in columns;
  }

  lemma LastColumn(columns: seq<Column>, rec: Record, v: Value)
    requires columns != [] && Conforms(columns[..|columns| - 1], rec) && Fits(columns[|columns| - 1], v)
    ensures Conforms(columns, rec[columns[|columns| - 1].name := v])
  {
    var n := |columns| - 1;
    var c := columns[n];
    var rec' := rec[c.name := v];
    assert columns == columns[..n] + [c];
    forall name | name in rec'
      ensures HasFit(columns, name, rec'[name])
    {
      if name == c.name {
        assert c in columns && Fits(c, rec'[name]);
      } else {
        MoreColumns(columns, n, name, rec'[name]);
      }
    }
  }

  /** Only rows that satisfy every column's constraint are converted. */
  lemma {:induction false} ConvertedConforms(cfg: Config, columns: seq<Column>, row: Row)
    requires RecordOf(cfg, columns, row).Some?
    ensures Conforms(columns, RecordOf(cfg, columns, row).value)
  {
    if columns != [] {
      var n := |columns| - 1;
      ConvertedConforms(cfg, columns[..n], row);
      CellFits(cfg, columns[n], row);
      LastColumn(columns, RecordOf(cfg, columns[..n], row).value, CellOf(cfg, columns[n], row).value);
    }
  }

  // ---- Tables

  predicate RowIntact(tables: Tables, t: nat, k: Key, rec: Record)
    requires t < TABLES
  {
    KeyOf(t, rec) == k && Conforms(SchemaOf(t).columns, rec) && RefsFound(t, tables, rec)
  }

  predicate UniqueIntact(t: nat, table: Table)
    requires t < TABLES
  {
    forall k, l :: k in table && l in table && SameUnique(t, table[k], table[l]) ==> k == l
  }

  /** Primary keys, column constraints, foreign keys and unique columns. */
  ghost predicate Intact(tables: Tables) {
    && (forall t, k :: 0 <= t < TABLES && k in tables[t] ==> RowIntact(tables, t, k, tables[t][k]))
    && (forall t :: 0 <= t < TABLES ==> UniqueIntact(t, tables[t]))
  }

  /** Rows that are only added leave every reference found. */
  lemma RefsStay(t: nat, a: Tables, b: Tables, rec: Record)
    requires t < TABLES && RefsFound(t, a, rec)
    requires forall u, k :: 0 <= u < TABLES && k in a[u] ==> k in b[u]
    ensures RefsFound(t, b, rec)
  {
  }

  lemma UniqueStays(t: nat, table: Table, key: Key, rec: Record)
    requires t < TABLES && UniqueIntact(t, table) && key !in table && !Clashes(t, table, rec)
    ensures UniqueIntact(t, table[key := rec])
  {
  }

  lemma KeptRow(tables: Tables, after: Tables, u: nat, k: Key)
    requires u < TABLES && k in tables[u] && k in after[u] && after[u][k] == tables[u][k]
    requires RowIntact(tables, u, k, tables[u][k])
    requires forall v, l :: 0 <= v < TABLES && l in tables[v] ==> l in after[v]
    ensures RowIntact(after, u, k, after[u][k])
  {
    RefsStay(u, tables, after, after[u][k]);
  }

  lemma NewRow(tables: Tables, after: Tables, t: nat, rec: Record)
    requires t < TABLES && Conforms(SchemaOf(t).columns, rec) && RefsFound(t, tables, rec)
    requires forall v, l :: 0 <= v < TABLES && l in tables[v] ==> l in after[v]
    ensures RowIntact(after, t, KeyOf(t, rec), rec)
  {
    RefsStay(t, tables, after, rec);
  }

  lemma InsertKeeps(t: nat, tables: Tables, rec: Record)
    requires t < TABLES && Intact(tables) && Conforms(SchemaOf(t).columns, rec)
    requires Insert(t, tables, rec).Some?
    ensures Intact(Insert(t, tables, rec).value)
  {
    var key, after := KeyOf(t, rec), Insert(t, tables, rec).value;
    if key !in tables[t] {
      UniqueStays(t, tables[t], key, rec);
      forall u, k | 0 <= u < TABLES && k in after[u]
        ensures RowIntact(after, u, k, after[u][k])
      {
        if u == t && k == key {
          NewRow(tables, after, t, rec);
        } else {
          KeptRow(tables, after, u, k);
        }
      }
    }
  }

  lemma {:induction false} ImportKeeps(cfg: Config, t: nat, tables: Tables, rows: seq<Row>)
    requires t < TABLES && Intact(tables) && ImportRows(cfg, t, tables, rows).Some?
    ensures Intact(ImportRows(cfg, t, tables, rows).value)
  {
    if rows != [] {
      var n := |rows| - 1;
      ImportKeeps(cfg, t, tables, rows[..n]);
      ConvertedConforms(cfg, SchemaOf(t).columns, rows[n]);
      InsertKeeps(t, ImportRows(cfg, t, tables, rows[..n]).value, Converted(cfg, t, rows[n]).value);
    }
  }

  lemma AdvanceKeeps(cfg: Config, files: Files, o: Outcome, i: nat)
    requires i < STEPS && Intact(o.db.tables)
    ensures Intact(Advance(cfg, files, o, i).db.tables)
  {
    if i < TABLES && !Advance(cfg, files, o, i).failed {
      ImportKeeps(cfg, i, o.db.tables, RowsIn(files[i]));
    }
  }

  lemma {:induction false} AttemptKeeps(cfg: Config, files: Files, db: Db, n: nat)
    requires n <= STEPS && Intact(db.tables)
    ensures Intact(Attempt(cfg, files, db, n).db.tables)
  {
    if n > 0 {
      AttemptKeeps(cfg, files, db, n - 1);
      AdvanceKeeps(cfg, files, Attempt(cfg, files, db, n - 1), n - 1);
    }
  }

  /** Whatever the files contain and wherever attempts stop, the tables stay intact. */
  lemma {:induction false} AttemptsKeep(cfg: Config, files: Files, db: Db, stops: seq<nat>)
    requires Intact(db.tables)
    ensures Intact(Attempts(cfg, files, db, stops).tables)
  {
    if stops != [] {
      var n := |stops| - 1;
      AttemptsKeep(cfg, files, db, stops[..n]);
      AttemptKeeps(cfg, files, Attempts(cfg, files, db, stops[..n]), Stopped(stops[n]));
    }
  }
}
