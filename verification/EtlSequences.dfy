/** The sequences after an import: whether the next generated ids are free, which depends on the rows
    that the updating session is allowed to see. */
module EtlSequences {
  import opened Wrappers
  import opened Sets
  import opened EtlTables
  import opened EtlFiles
  import opened EtlRuns
  import opened EtlIntegrity
  import Decimal

  /** Every id present is below the next one. */
  ghost predicate Fresh(db: Db, t: nat)
    requires t < TABLES
  {
    t in db.next && forall k :: k in db.tables[t] && k.Id? ==> k.id < db.next[t]
  }

  /** ... in every table whose ids are generated. */
  ghost predicate AllFresh(db: Db) {
    forall t :: 0 <= t < TABLES && t != USER_UNITS ==> Fresh(db, t)
  }

  /** Every table but user_units has its sequence updated. */
  lemma EachBumped(db: Db)
    ensures AllFresh(db) <==> forall i :: 0 <= i < |BUMPED| ==> Fresh(db, BUMPED[i])
  {
    if forall i :: 0 <= i < |BUMPED| ==> Fresh(db, BUMPED[i]) {
      forall t | 0 <= t < TABLES && t != USER_UNITS
        ensures Fresh(db, t)
      {
        assert Fresh(db, BUMPED[if t < USER_UNITS then t else t - 1]);
      }
    }
  }

  /** The SELECT policies of a table for a session with this user and role. */
  predicate Sees(user: int, role: string, tables: Tables, t: nat, rec: Record) {
    var unit := Field(rec, "unit_id");
    var member := unit.Int? && Pair(user, unit.i) in tables[USER_UNITS];
    && (t == SPDS ==> Field(rec, "created_by") == Int(user) || member || role == "SUPER_ADMIN")
    && (t == BUDGETS ==> role in {"SUPER_ADMIN", "FINANCE", "BUDGET_ADMIN"} || member)
  }

  /** What one sequence update computes: the largest id that the policies show, or 1 for none, unless it
      is less than 1 or the policies cannot be evaluated. */
  lemma BumpIff(session: Session, tables: Tables, t: nat, v: int)
    requires t < TABLES
    requires session.Cleared? && (t == BUDGETS || t == SPDS) ==> tables[t] == map[]
    ensures var shown := (k: Key) requires k in tables[t] => session.Bypassed? || Sees(0, "", tables, t, tables[t][k]);
      BumpTo(session, tables, t) == Some(v) <==>
        && v >= 1
        && (forall k :: k in tables[t] && k.Id? && shown(k) ==> k.id <= v)
        && ((exists k :: k in tables[t] && k.Id? && shown(k) && k.id == v)
            || (v == 1 && forall k :: k in tables[t] && k.Id? ==> !shown(k)))
  {
    var ids := VisibleIds(session, tables, t);
    forall k | k in tables[t] && k.Id?
      ensures Visible(session, tables, t, tables[t][k]) <==> session.Bypassed? || Sees(0, "", tables, t, tables[t][k])
      ensures k.id in ids <==> session.Bypassed? || Sees(0, "", tables, t, tables[t][k])
    {
    }
  }

  /** Settings left empty by an earlier transaction make the policies fail on any row. */
  lemma ClearedFails(tables: Tables, t: nat)
    requires t == BUDGETS || t == SPDS
    ensures BumpTo(Cleared, tables, t) == None <==> tables[t] != map[]
  {
  }

  /** No id above 1 is hidden behind smaller visible ones. */
  ghost predicate NoneHidden(session: Session, tables: Tables, t: nat)
    requires t < TABLES
  {
    forall k :: k in tables[t] && k.Id? && k.id > 1 ==>
      exists seen :: seen in VisibleIds(session, tables, t) && seen >= k.id
  }

  /** After its sequence update a table's next id follows the largest id that the session saw (or 1),
      so it is fresh exactly when no larger id was hidden. */
  lemma FreshIffSeen(cfg: Config, files: Files, db: Db, i: nat)
    requires i < |BUMPED| && Done(cfg, files, db, TABLES + i)
    ensures var t, session := BUMPED[i], SessionOf(cfg, files);
      && t in db.next && (db.next[t] == 2 || db.next[t] - 1 in VisibleIds(session, db.tables, t))
      && (Fresh(db, t) <==> NoneHidden(session, db.tables, t))
  {
    var t := BUMPED[i];
    var ids := VisibleIds(SessionOf(cfg, files), db.tables, t);
    if Fresh(db, t) {
      forall k | k in db.tables[t] && k.Id? && k.id > 1
        ensures exists seen :: seen in ids && seen >= k.id
      {
        assert db.next[t] - 1 >= k.id;
      }
    }
  }

  /** For every completed import: the next ids are fresh exactly when no larger ids were hidden. */
  lemma CompletedFreshIff(cfg: Config, files: Files, db: Db)
    requires !Attempt(cfg, files, db, STEPS).failed
    ensures var after := Attempt(cfg, files, db, STEPS).db;
      AllFresh(after) <==> forall i :: 0 <= i < |BUMPED| ==> NoneHidden(SessionOf(cfg, files), after.tables, BUMPED[i])
  {
    var after := Attempt(cfg, files, db, STEPS).db;
    forall i | 0 <= i < |BUMPED|
      ensures Fresh(after, BUMPED[i]) <==> NoneHidden(SessionOf(cfg, files), after.tables, BUMPED[i])
    {
      DoneBefore(cfg, files, db, STEPS, TABLES + i);
      FreshIffSeen(cfg, files, after, i);
    }
    EachBumped(after);
  }

  lemma BypassedSeesAll(tables: Tables, t: nat)
    requires t < TABLES
    ensures NoneHidden(Bypassed, tables, t)
  {
    forall k | k in tables[t] && k.Id? && k.id > 1
      ensures exists seen :: seen in VisibleIds(Bypassed, tables, t) && seen >= k.id
    {
      assert Visible(Bypassed, tables, t, tables[t][k]);
      assert k.id in VisibleIds(Bypassed, tables, t);
    }
  }

  /** Through a connection that the policies do not bind, a completed import leaves only fresh ids. */
  lemma CompletedFresh(cfg: Config, files: Files, db: Db)
    requires !cfg.bound && !Attempt(cfg, files, db, STEPS).failed
    ensures AllFresh(Attempt(cfg, files, db, STEPS).db)
  {
    var after := Attempt(cfg, files, db, STEPS).db;
    CompletedFreshIff(cfg, files, db);
    forall i | 0 <= i < |BUMPED| {
      BypassedSeesAll(after.tables, BUMPED[i]);
    }
  }

  lemma Inhabited(table: Table, k: Key)
    requires k in table
    ensures table != map[]
  {
  }

  lemma FirstKey(cfg: Config, t: nat, table: Table, rows: seq<Row>)
    requires t < TABLES && rows != [] && Covered(cfg, t, table, rows)
    ensures table != map[]
  {
    Inhabited(table, KeyOf(t, Converted(cfg, t, rows[0]).value));
  }

  /** Where the policies bind, an import whose budget or SPD file has rows never completes: by the time
      the sequences are updated its session can no longer evaluate the policies. */
  lemma BoundNeverCompletes(cfg: Config, files: Files, db: Db, t: nat)
    requires cfg.bound && (t == BUDGETS || t == SPDS) && files[t].Rows? && files[t].rows != []
    ensures Attempt(cfg, files, db, STEPS).failed
  {
    if !Attempt(cfg, files, db, STEPS).failed {
      var after, i := Attempt(cfg, files, db, STEPS).db, if t == BUDGETS then 3 else 4;
      DoneBefore(cfg, files, db, STEPS, t);
      DoneBefore(cfg, files, db, STEPS, TABLES + i);
      FirstKey(cfg, t, after.tables[t], files[t].rows);
      ClearedFails(after.tables, t);
      assert false;
    }
  }

  // ---- A database in which the ids stay hidden

  /** Each cell is one digit. */
  predicate SmallRow(row: Row) {
    forall name :: name in row ==> |row[name]| == 1 && Decimal.IsDigit(row[name][0])
  }

  /** A column for which such a row has what it needs, or the default does. */
  predicate Suits(c: Column, row: Row) {
    match c
    case Number(name, required) => required ==> name in row
    case Instant(name, _) => name !in row
    case Words(name, default, limit) => name !in row && Within(default, limit)
    case NonEmpty(name) => name in row
    case _ => c.name !in row
  }

  lemma SmallNumber(s: string)
    requires |s| == 1 && Decimal.IsDigit(s[0])
    ensures ParseInt64(s) == Some(Decimal.DigitValue(s[0])) && 0 <= Decimal.DigitValue(s[0]) <= 9
  {
    assert s[..0] == [] && Decimal.Value(s[..0]) == 0;
    assert Decimal.AllDigits(s) && Decimal.Value(s) == Decimal.DigitValue(s[0]);
  }

  lemma SuitsCell(cfg: Config, c: Column, row: Row)
    requires SmallRow(row) && Suits(c, row)
    ensures CellOf(cfg, c, row).Some?
  {
    if c.Number? && c.name in row {
      SmallNumber(row[c.name]);
    }
  }

  lemma {:induction false} SuitsRecord(cfg: Config, columns: seq<Column>, row: Row)
    requires SmallRow(row) && forall i :: 0 <= i < |columns| ==> Suits(columns[i], row)
    ensures RecordOf(cfg, columns, row).Some?
  {
    if columns != [] {
      SuitsRecord(cfg, columns[..|columns| - 1], row);
      SuitsCell(cfg, columns[|columns| - 1], row);
    }
  }

  /** The field of a column whose name no later column has. */
  lemma {:induction false} FieldOf(cfg: Config, columns: seq<Column>, row: Row, i: nat)
    requires RecordOf(cfg, columns, row).Some? && i < |columns|
    requires forall j :: i < j < |columns| ==> columns[j].name != columns[i].name
    ensures CellOf(cfg, columns[i], row).Some?
    ensures Field(RecordOf(cfg, columns, row).value, columns[i].name) == CellOf(cfg, columns[i], row).value
  {
    if i < |columns| - 1 {
      FieldOf(cfg, columns[..|columns| - 1], row, i);
    }
  }

  const UNIT_ROW: Row := map["id" := "1"]
  const USER_ROW: Row := map["id" := "1", "password_hash" := "1"]
  const SPD_ROW: Row := map["id" := "7", "unit_id" := "1", "created_by" := "1"]

  /** A number column of such a row: its digit, or NULL. */
  lemma NumberOf(cfg: Config, columns: seq<Column>, row: Row, i: nat)
    requires SmallRow(row) && RecordOf(cfg, columns, row).Some? && i < |columns| && columns[i].Number?
    requires forall j :: i < j < |columns| ==> columns[j].name != columns[i].name
    ensures Field(RecordOf(cfg, columns, row).value, columns[i].name) ==
      if columns[i].name in row then Int(Decimal.DigitValue(row[columns[i].name][0])) else Null
  {
    FieldOf(cfg, columns, row, i);
    if columns[i].name in row {
      SmallNumber(row[columns[i].name]);
    }
  }

  lemma UnitRecord(cfg: Config)
    ensures var r := Converted(cfg, UNITS, UNIT_ROW);
      r.Some? && KeyOf(UNITS, r.value) == Id(1)
  {
    SuitsRecord(cfg, SchemaOf(UNITS).columns, UNIT_ROW);
    NumberOf(cfg, SchemaOf(UNITS).columns, UNIT_ROW, 0);
  }

  lemma UserConverted(cfg: Config)
    ensures Converted(cfg, USERS, USER_ROW).Some?
  {
    SuitsRecord(cfg, SchemaOf(USERS).columns, USER_ROW);
  }

  lemma UserRecord(cfg: Config)
    requires Converted(cfg, USERS, USER_ROW).Some?
    ensures var r := Converted(cfg, USERS, USER_ROW).value;
      KeyOf(USERS, r) == Id(1) && Field(r, "employee_id") == Null
  {
    NumberOf(cfg, SchemaOf(USERS).columns, USER_ROW, 0);
    NumberOf(cfg, SchemaOf(USERS).columns, USER_ROW, 4);
  }

  lemma SpdConverted(cfg: Config)
    ensures Converted(cfg, SPDS, SPD_ROW).Some?
  {
    SuitsRecord(cfg, SchemaOf(SPDS).columns, SPD_ROW);
  }

  lemma SpdKey(cfg: Config)
    requires Converted(cfg, SPDS, SPD_ROW).Some?
    ensures KeyOf(SPDS, Converted(cfg, SPDS, SPD_ROW).value) == Id(7)
  {
    NumberOf(cfg, SchemaOf(SPDS).columns, SPD_ROW, 0);
  }

  lemma SpdOwner(cfg: Config)
    requires Converted(cfg, SPDS, SPD_ROW).Some?
    ensures var r := Converted(cfg, SPDS, SPD_ROW).value;
      Field(r, "unit_id") == Int(1) && Field(r, "created_by") == Int(1)
  {
    NumberOf(cfg, SchemaOf(SPDS).columns, SPD_ROW, 3);
    NumberOf(cfg, SchemaOf(SPDS).columns, SPD_ROW, 9);
  }

  lemma SpdEmployee(cfg: Config)
    requires Converted(cfg, SPDS, SPD_ROW).Some?
    ensures Field(Converted(cfg, SPDS, SPD_ROW).value, "employee_id") == Null
  {
    NumberOf(cfg, SchemaOf(SPDS).columns, SPD_ROW, 2);
  }

  lemma SpdBudget(cfg: Config)
    requires Converted(cfg, SPDS, SPD_ROW).Some?
    ensures Field(Converted(cfg, SPDS, SPD_ROW).value, "budget_id") == Null
  {
    NumberOf(cfg, SchemaOf(SPDS).columns, SPD_ROW, 4);
  }

  const NO_FILES: Files := seq(TABLES, _ => Missing)

  /** A unit 1, a user 1 without an employee, and an SPD 7 of both without employee and budget. */
  predicate Ordinary(units: Record, users: Record, spds: Record) {
    && KeyOf(UNITS, units) == Id(1)
    && KeyOf(USERS, users) == Id(1) && Field(users, "employee_id") == Null
    && KeyOf(SPDS, spds) == Id(7) && Field(spds, "unit_id") == Int(1) && Field(spds, "created_by") == Int(1)
    && Field(spds, "employee_id") == Null && Field(spds, "budget_id") == Null
  }

  predicate AllConform(units: Record, users: Record, spds: Record) {
    Conforms(SchemaOf(UNITS).columns, units) && Conforms(SchemaOf(USERS).columns, users)
    && Conforms(SchemaOf(SPDS).columns, spds)
  }

  /** Those three rows and no others. */
  predicate OnlyThese(tables: Tables, units: Record, users: Record, spds: Record) {
    && tables[UNITS] == map[Id(1) := units] && tables[USERS] == map[Id(1) := users]
    && tables[SPDS] == map[Id(7) := spds]
    && forall t :: 0 <= t < TABLES && t != UNITS && t != USERS && t != SPDS ==> tables[t] == map[]
  }

  function HiddenTables(units: Record, users: Record, spds: Record): (tables: Tables)
    ensures OnlyThese(tables, units, users, spds)
  {
    [map[Id(1) := units], map[], map[Id(1) := users], map[], map[], map[Id(7) := spds], map[], map[], map[]]
  }

  lemma OrdinaryRecords(cfg: Config) returns (units: Record, users: Record, spds: Record)
    ensures Ordinary(units, users, spds) && AllConform(units, users, spds)
  {
    UnitRecord(cfg);
    UserConverted(cfg);
    UserRecord(cfg);
    SpdConverted(cfg);
    SpdKey(cfg);
    SpdOwner(cfg);
    SpdEmployee(cfg);
    SpdBudget(cfg);
    units := Converted(cfg, UNITS, UNIT_ROW).value;
    users := Converted(cfg, USERS, USER_ROW).value;
    spds := Converted(cfg, SPDS, SPD_ROW).value;
    ConvertedConforms(cfg, SchemaOf(UNITS).columns, UNIT_ROW);
    ConvertedConforms(cfg, SchemaOf(USERS).columns, USER_ROW);
    ConvertedConforms(cfg, SchemaOf(SPDS).columns, SPD_ROW);
  }

  lemma UserRefs(tables: Tables, users: Record)
    requires Field(users, "employee_id") == Null
    ensures RefsFound(USERS, tables, users)
  {
    assert SchemaOf(USERS).refs == [Ref("employee_id", EMPLOYEES)];
  }

  lemma SpdRefs(tables: Tables, spds: Record)
    requires Field(spds, "unit_id") == Int(1) && Field(spds, "created_by") == Int(1)
    requires Field(spds, "employee_id") == Null && Field(spds, "budget_id") == Null
    requires Id(1) in tables[UNITS] && Id(1) in tables[USERS]
    ensures RefsFound(SPDS, tables, spds)
  {
    assert SchemaOf(SPDS).refs ==
      [Ref("employee_id", EMPLOYEES), Ref("unit_id", UNITS), Ref("budget_id", BUDGETS), Ref("created_by", USERS)];
  }

  lemma UnitRefs(tables: Tables, units: Record)
    ensures RefsFound(UNITS, tables, units)
  {
    assert SchemaOf(UNITS).refs == [];
  }

  lemma SingleUnique(t: nat, k: Key, r: Record)
    requires t < TABLES
    ensures UniqueIntact(t, map[k := r]) && UniqueIntact(t, map[])
  {
  }

  lemma Together(tables: Tables, t: nat, k: Key, rec: Record)
    requires t < TABLES && KeyOf(t, rec) == k && Conforms(SchemaOf(t).columns, rec) && RefsFound(t, tables, rec)
    ensures RowIntact(tables, t, k, rec)
  {
  }

  lemma UnitIntact(tables: Tables, units: Record)
    requires KeyOf(UNITS, units) == Id(1) && Conforms(SchemaOf(UNITS).columns, units)
    ensures RowIntact(tables, UNITS, Id(1), units)
  {
    UnitRefs(tables, units);
    Together(tables, UNITS, Id(1), units);
  }

  lemma UserIntact(tables: Tables, users: Record)
    requires KeyOf(USERS, users) == Id(1) && Conforms(SchemaOf(USERS).columns, users) && Field(users, "employee_id") == Null
    ensures RowIntact(tables, USERS, Id(1), users)
  {
    UserRefs(tables, users);
    Together(tables, USERS, Id(1), users);
  }

  lemma SpdIntact(tables: Tables, spds: Record)
    requires KeyOf(SPDS, spds) == Id(7) && Conforms(SchemaOf(SPDS).columns, spds)
    requires Field(spds, "unit_id") == Int(1) && Field(spds, "created_by") == Int(1)
    requires Field(spds, "employee_id") == Null && Field(spds, "budget_id") == Null
    requires Id(1) in tables[UNITS] && Id(1) in tables[USERS]
    ensures RowIntact(tables, SPDS, Id(7), spds)
  {
    SpdRefs(tables, spds);
    Together(tables, SPDS, Id(7), spds);
  }

  lemma WhichRow(tables: Tables, units: Record, users: Record, spds: Record, t: nat, k: Key)
    requires OnlyThese(tables, units, users, spds) && t < TABLES && k in tables[t]
    ensures (t == UNITS && k == Id(1) && tables[t][k] == units) || (t == USERS && k == Id(1) && tables[t][k] == users)
      || (t == SPDS && k == Id(7) && tables[t][k] == spds)
  {
  }

  lemma UniqueRows(tables: Tables, units: Record, users: Record, spds: Record, t: nat)
    requires OnlyThese(tables, units, users, spds) && t < TABLES
    ensures UniqueIntact(t, tables[t])
  {
    SingleUnique(t, Id(1), units);
    SingleUnique(t, Id(1), users);
    SingleUnique(t, Id(7), spds);
  }

  lemma HiddenIntact(tables: Tables, units: Record, users: Record, spds: Record)
    requires Ordinary(units, users, spds) && AllConform(units, users, spds) && OnlyThese(tables, units, users, spds)
    ensures Intact(tables)
  {
    UnitIntact(tables, units);
    UserIntact(tables, users);
    SpdIntact(tables, spds);
    forall t | 0 <= t < TABLES {
      UniqueRows(tables, units, users, spds, t);
    }
    forall t, k | 0 <= t < TABLES && k in tables[t]
      ensures RowIntact(tables, t, k, tables[t][k])
    {
      WhichRow(tables, units, users, spds, t, k);
    }
  }

  function SeenIds(t: nat): set<int> {
    if t == UNITS || t == USERS then {1} else {}
  }

  /** What a session without an identity sees: SPD 7 is not among it. */
  lemma HiddenIds(tables: Tables, units: Record, users: Record, spds: Record, t: nat)
    requires OnlyThese(tables, units, users, spds) && t < TABLES
    requires Field(spds, "unit_id") == Int(1) && Field(spds, "created_by") == Int(1)
    ensures VisibleIds(Unset, tables, t) == SeenIds(t)
  {
    assert t == UNITS || t == USERS ==> Id(1) in tables[t] && Visible(Unset, tables, t, tables[t][Id(1)]);
    SameSet(VisibleIds(Unset, tables, t), SeenIds(t));
  }

  /** There is a database with intact tables that hides SPD 7 from a session without an identity. */
  lemma HiddenDatabase(cfg: Config) returns (db: Db)
    ensures Intact(db.tables) && Id(7) in db.tables[SPDS]
    ensures forall t :: 0 <= t < TABLES ==> VisibleIds(Unset, db.tables, t) == SeenIds(t)
  {
    var units, users, spds := OrdinaryRecords(cfg);
    var tables := HiddenTables(units, users, spds);
    HiddenIntact(tables, units, users, spds);
    forall t | 0 <= t < TABLES
      ensures VisibleIds(Unset, tables, t) == SeenIds(t)
    {
      HiddenIds(tables, units, users, spds, t);
    }
    db := Db(tables, map[]);
  }

  lemma IdleBump(tables: Tables, t: nat)
    requires t < TABLES && VisibleIds(Unset, tables, t) == SeenIds(t)
    ensures BumpTo(Unset, tables, t) == Some(1)
  {
  }

  lemma IdleStep(cfg: Config, db: Db, i: nat)
    requires cfg.bound && i < STEPS
    requires forall t :: 0 <= t < TABLES ==> VisibleIds(Unset, db.tables, t) == SeenIds(t)
    ensures StepAt(cfg, NO_FILES, db, i).Some? && StepAt(cfg, NO_FILES, db, i).value.tables == db.tables
  {
    if i >= TABLES {
      IdleBump(db.tables, BUMPED[i - TABLES]);
    }
  }

  /** With no files an import only updates the sequences. */
  lemma {:induction false} IdleRun(cfg: Config, db: Db, n: nat)
    requires cfg.bound && n <= STEPS
    requires forall t :: 0 <= t < TABLES ==> VisibleIds(Unset, db.tables, t) == SeenIds(t)
    ensures var o := Attempt(cfg, NO_FILES, db, n);
      !o.failed && o.db.tables == db.tables
  {
    if n > 0 {
      IdleRun(cfg, db, n - 1);
      IdleStep(cfg, Attempt(cfg, NO_FILES, db, n - 1).db, n - 1);
    }
  }

  /** Every import into an intact database that completes leaves only fresh ids. */
  ghost predicate CompletionMeansFresh(cfg: Config) {
    forall files: Files, db: Db :: Intact(db.tables) && !Attempt(cfg, files, db, STEPS).failed ==>
      AllFresh(Attempt(cfg, files, db, STEPS).db)
  }

  lemma StaleSequence(cfg: Config, files: Files, db: Db)
    requires Done(cfg, files, db, TABLES + 4) && SessionOf(cfg, files) == Unset
    requires Id(7) in db.tables[SPDS] && VisibleIds(Unset, db.tables, SPDS) == {}
    ensures !Fresh(db, SPDS)
  {
    FreshIffSeen(cfg, files, db, 4);
    assert BUMPED[4] == SPDS;
  }

  /** The run that leaves a stale sequence. */
  lemma StaleRun(cfg: Config) returns (db: Db)
    requires cfg.bound
    ensures Intact(db.tables) && !Attempt(cfg, NO_FILES, db, STEPS).failed
    ensures !AllFresh(Attempt(cfg, NO_FILES, db, STEPS).db)
  {
    db := HiddenDatabase(cfg);
    IdleRun(cfg, db, STEPS);
    DoneBefore(cfg, NO_FILES, db, STEPS, TABLES + 4);
    assert VisibleIds(Unset, db.tables, SPDS) == SeenIds(SPDS);
    StaleSequence(cfg, NO_FILES, Attempt(cfg, NO_FILES, db, STEPS).db);
    assert BUMPED[4] == SPDS;
  }

  /** Completion always means fresh ids exactly when the policies do not bind the connection. */
  lemma FreshIffNotBound(cfg: Config)
    ensures CompletionMeansFresh(cfg) <==> !cfg.bound
  {
    if cfg.bound {
      var db := StaleRun(cfg);
    } else {
      forall files: Files, db: Db | Intact(db.tables) && !Attempt(cfg, files, db, STEPS).failed
        ensures AllFresh(Attempt(cfg, files, db, STEPS).db)
      {
        CompletedFresh(cfg, files, db);
      }
    }
  }
}
