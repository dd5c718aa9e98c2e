/** What an imported row says: every column of the nine tables, told by the cells of the CSV row alone. */
module EtlCells {
  import opened Wrappers
  import opened EtlTables
  import opened EtlFiles
  import Decimal

  // ---- Cells

  predicate Digits(d: string) {
    d != "" && Decimal.AllDigits(d)
  }

  /** `v` is a decimal numeral of `n`, with or without a sign. */
  predicate Numeral(v: string, n: int) {
    || (Digits(v) && n == Decimal.Value(v))
    || (v != "" && v[0] == '+' && Digits(v[1..]) && n == Decimal.Value(v[1..]))
    || (v != "" && v[0] == '-' && Digits(v[1..]) && -n == Decimal.Value(v[1..]))
  }

  predicate Malformed(v: string) {
    !Digits(v) && (v == "" || (v[0] != '+' && v[0] != '-') || !Digits(v[1..]))
  }

  lemma ReadIntIff(v: string, n: int)
    ensures ReadInt(v) == Some(n) <==> Numeral(v, n)
    ensures ReadInt(v) == None <==> Malformed(v)
  {
    if v != "" && (v[0] == '+' || v[0] == '-') {
      assert !Decimal.AllDigits(v);
    }
  }

  /** The same word but for the case of its letters; `w` is in lower case. */
  predicate SameWord(v: string, w: string) {
    |v| == |w| && forall i :: 0 <= i < |w| ==> v[i] == w[i] || ('a' <= w[i] <= 'z' && v[i] as int == w[i] as int - 32)
  }

  predicate SaysTrue(v: string) {
    SameWord(v, "1") || SameWord(v, "t") || SameWord(v, "true") || SameWord(v, "y") || SameWord(v, "yes")
  }

  predicate SaysFalse(v: string) {
    SameWord(v, "0") || SameWord(v, "f") || SameWord(v, "false") || SameWord(v, "n") || SameWord(v, "no")
  }

  lemma LowerIff(v: string, w: string)
    requires forall i :: 0 <= i < |w| ==> !('A' <= w[i] <= 'Z')
    ensures Lower(v) == w <==> SameWord(v, w)
  {
    if Lower(v) == w {
      forall i | 0 <= i < |w|
        ensures v[i] == w[i] || ('a' <= w[i] <= 'z' && v[i] as int == w[i] as int - 32)
      {
        assert Lower(v)[i] == w[i];
      }
    }
    if SameWord(v, w) {
      assert forall i :: 0 <= i < |w| ==> Lower(v)[i] == w[i];
    }
  }

  lemma WordLists(v: string)
    ensures Lower(v) in {"1", "t", "true", "y", "yes"} <==> SaysTrue(v)
    ensures Lower(v) in {"0", "f", "false", "n", "no"} <==> SaysFalse(v)
  {
    LowerIff(v, "1");
    LowerIff(v, "t");
    LowerIff(v, "true");
    LowerIff(v, "y");
    LowerIff(v, "yes");
    LowerIff(v, "0");
    LowerIff(v, "f");
    LowerIff(v, "false");
    LowerIff(v, "n");
    LowerIff(v, "no");
  }

  // ---- Columns

  predicate Number64(v: string, x: Value) {
    x.Int? && Numeral(v, x.i) && -0x8000_0000_0000_0000 <= x.i <= 0x7fff_ffff_ffff_ffff
  }

  /** What a cell `v` stores in its column. Text is stored as it is, or the default if it is empty; a
      step that is no number counts as 0, and one outside 32 bits is an error. */
  predicate Stores(cfg: Config, c: Column, v: string, x: Value) {
    match c
    case Number(_, required) => if v == "" && !required then x == Null else Number64(v, x)
    case Instant(_, orNow) =>
      if v == "" then x == if orNow then Now else Null
      else cfg.parseTime(v).Some? && x == Time(cfg.parseTime(v).value)
    case Words(_, default, limit) =>
      && x == Text(if v == "" then default else v)
      && (limit.AtMost? ==> |x.s| <= limit.chars)
      && (limit.OneOf? ==> x.s in limit.words)
    case Encrypted(_, aad) => x == if v == "" then Null else Sealed(v, aad)
    case Toggle(_, on) => x == Bool(if SaysTrue(v) then true else if SaysFalse(v) then false else on)
    case StepNumber(_) =>
      && x.Int? && -0x8000_0000 <= x.i <= 0x7fff_ffff
      && (Numeral(v, x.i) || (x.i == 0 && Malformed(v)))
    case NonEmpty(_) => v != "" && x == Text(v)
  }

  lemma NumberIff(v: string, n: int)
    ensures ParseInt64(v) == Some(n) <==> Number64(v, Int(n))
  {
    ReadIntIff(v, n);
  }

  lemma StepIff(cfg: Config, name: string, row: Row, x: Value)
    ensures CellOf(cfg, StepNumber(name), row) == Some(x) <==> Stores(cfg, StepNumber(name), Str(row, name), x)
  {
    var v := Str(row, name);
    ReadIntIff(v, 0);
    if ReadInt(v).Some? {
      ReadIntIff(v, ReadInt(v).value);
    }
    if x.Int? {
      ReadIntIff(v, x.i);
    }
  }

  lemma CellIff(cfg: Config, c: Column, row: Row, x: Value)
    ensures CellOf(cfg, c, row) == Some(x) <==> Stores(cfg, c, Str(row, c.name), x)
  {
    match c
    case Number(name, _) =>
      if x.Int? {
        NumberIff(Str(row, name), x.i);
      }
    case Toggle(name, _) => WordLists(Str(row, name));
    case StepNumber(name) => StepIff(cfg, name, row, x);
    case _ =>
  }

  // ---- Records

  predicate Distinct(columns: seq<Column>) {
    forall i, j :: 0 <= i < j < |columns| ==> columns[i].name != columns[j].name
  }

  /** The record has the column, with what the row's cell stores. */
  function Stored(cfg: Config, row: Row, rec: Record): Column -> bool {
    (c: Column) => c.name in rec && Stores(cfg, c, Str(row, c.name), rec[c.name])
  }

  predicate At(holds: Column -> bool, columns: seq<Column>, i: nat) {
    i < |columns| ==> holds(columns[i])
  }

  ghost predicate All(holds: Column -> bool, columns: seq<Column>) {
    forall i: nat :: At(holds, columns, i)
  }

  lemma {:induction false} RecordStored(cfg: Config, columns: seq<Column>, row: Row)
    requires Distinct(columns) && RecordOf(cfg, columns, row).Some?
    ensures All(Stored(cfg, row, RecordOf(cfg, columns, row).value), columns)
  {
    if columns != [] {
      var n := |columns| - 1;
      RecordStored(cfg, columns[..n], row);
      var before, rec := RecordOf(cfg, columns[..n], row).value, RecordOf(cfg, columns, row).value;
      forall i: nat
        ensures At(Stored(cfg, row, rec), columns, i)
      {
        if i < n {
          assert At(Stored(cfg, row, before), columns[..n], i);
        } else if i == n {
          CellIff(cfg, columns[n], row, rec[columns[n].name]);
        }
      }
    }
  }

  lemma {:induction false} StoredRecord(cfg: Config, columns: seq<Column>, row: Row, rec: Record)
    requires All(Stored(cfg, row, rec), columns)
    ensures RecordOf(cfg, columns, row).Some?
  {
    if columns != [] {
      var n := |columns| - 1;
      forall i: nat
        ensures At(Stored(cfg, row, rec), columns[..n], i)
      {
        assert At(Stored(cfg, row, rec), columns, i);
      }
      StoredRecord(cfg, columns[..n], row, rec);
      assert At(Stored(cfg, row, rec), columns, n);
      CellIff(cfg, columns[n], row, rec[columns[n].name]);
    }
  }

  // ---- The nine tables, as their INSERT statements and constraints have them

  predicate Dates(holds: Column -> bool) {
    holds(Instant("created_at", true)) && holds(Instant("updated_at", true)) && holds(Instant("deleted_at", false))
  }

  predicate UnitColumns(holds: Column -> bool) {
    holds(Number("id", true)) && holds(Words("code", "", Any)) && holds(Words("name", "", Any)) && Dates(holds)
  }

  predicate EmployeeColumns(holds: Column -> bool) {
    && holds(Number("id", true)) && holds(Words("nip", "", Any)) && holds(Words("name", "", Any))
    && holds(Number("unit_id", false)) && Dates(holds)
  }

  predicate UserColumns(holds: Column -> bool) {
    && holds(Number("id", true)) && holds(Words("username", "", Any)) && holds(NonEmpty("password_hash"))
    && holds(Words("role", "", Any)) && holds(Number("employee_id", false))
    && holds(Toggle("is_active", true)) && holds(Toggle("mfa_enabled", false))
    && holds(Instant("last_login_at", false)) && Dates(holds)
  }

  predicate UserUnitColumns(holds: Column -> bool) {
    holds(Number("user_id", true)) && holds(Number("unit_id", true)) && holds(Instant("created_at", true))
  }

  predicate BudgetColumns(holds: Column -> bool) {
    && holds(Number("id", true)) && holds(Number("unit_id", true)) && holds(Number("created_by", true))
    && holds(Encrypted("amount", "budgets:amount")) && holds(Encrypted("source", "budgets:source"))
    && holds(Words("description", "", Any)) && Dates(holds)
  }

  predicate SpdColumns(holds: Column -> bool) {
    && holds(Number("id", true)) && holds(Words("nomor_surat", "", AtMost(50)))
    && holds(Number("employee_id", false)) && holds(Number("unit_id", true)) && holds(Number("budget_id", false))
    && holds(Encrypted("purpose", "spds:purpose")) && holds(Encrypted("total_cost", "spds:total_cost"))
    && holds(Words("status", "DRAFT", OneOf({"DRAFT", "SUBMITTED", "APPROVED", "REJECTED", "CANCELLED"})))
    && holds(Number("current_approver_id", false)) && holds(Number("created_by", true)) && Dates(holds)
  }

  predicate ApprovalColumns(holds: Column -> bool) {
    && holds(Number("id", true)) && holds(Number("spd_id", true)) && holds(StepNumber("step"))
    && holds(Number("approver_id", false))
    && holds(Words("status", "PENDING", OneOf({"PENDING", "APPROVED", "REJECTED"})))
    && holds(Words("comment", "", Any)) && holds(Number("decided_by", false)) && holds(Instant("decided_at", false))
    && holds(Instant("created_at", true)) && holds(Instant("updated_at", true))
  }

  predicate DocumentColumns(holds: Column -> bool) {
    && holds(Number("id", true)) && holds(Number("spd_id", true)) && holds(Words("format", "", AtMost(10)))
    && holds(Words("object_key", "", Any)) && holds(Number("requested_by", true)) && holds(Instant("created_at", true))
  }

  predicate NotificationColumns(holds: Column -> bool) {
    && holds(Number("id", true)) && holds(Words("channel", "", Any)) && holds(Words("recipient", "", Any))
    && holds(Words("subject", "", Any)) && holds(Words("body", "", Any)) && holds(Words("status", "QUEUED", Any))
    && holds(Number("requested_by", false)) && holds(Instant("created_at", true))
    && holds(Instant("sent_at", false)) && holds(Instant("deleted_at", false))
  }

  predicate TableColumns(t: nat, holds: Column -> bool)
    requires t < TABLES
  {
    if t == UNITS then UnitColumns(holds)
    else if t == EMPLOYEES then EmployeeColumns(holds)
    else if t == USERS then UserColumns(holds)
    else if t == USER_UNITS then UserUnitColumns(holds)
    else if t == BUDGETS then BudgetColumns(holds)
    else if t == SPDS then SpdColumns(holds)
    else if t == APPROVALS then ApprovalColumns(holds)
    else if t == DOCUMENTS then DocumentColumns(holds)
    else NotificationColumns(holds)
  }

  /** No table has more than thirteen columns. */
  lemma OneByOne(holds: Column -> bool, columns: seq<Column>)
    requires |columns| <= 13
    requires At(holds, columns, 0) && At(holds, columns, 1) && At(holds, columns, 2) && At(holds, columns, 3)
    requires At(holds, columns, 4) && At(holds, columns, 5) && At(holds, columns, 6) && At(holds, columns, 7)
    requires At(holds, columns, 8) && At(holds, columns, 9) && At(holds, columns, 10) && At(holds, columns, 11)
    requires At(holds, columns, 12)
    ensures All(holds, columns)
  {
    forall i: nat
      ensures At(holds, columns, i)
    {
      assert i >= 13 || i == 0 || i == 1 || i == 2 || i == 3 || i == 4 || i == 5 || i == 6 || i == 7 || i == 8 || i == 9
        || i == 10 || i == 11 || i == 12;
    }
  }

  lemma Each(holds: Column -> bool, columns: seq<Column>)
    requires All(holds, columns)
    ensures At(holds, columns, 0) && At(holds, columns, 1) && At(holds, columns, 2) && At(holds, columns, 3)
    ensures At(holds, columns, 4) && At(holds, columns, 5) && At(holds, columns, 6) && At(holds, columns, 7)
    ensures At(holds, columns, 8) && At(holds, columns, 9) && At(holds, columns, 10) && At(holds, columns, 11)
    ensures At(holds, columns, 12)
  {
  }

  lemma FirstTables(t: nat, holds: Column -> bool)
    requires t == UNITS || t == EMPLOYEES || t == USERS
    ensures All(holds, SchemaOf(t).columns) <==> TableColumns(t, holds)
  {
    if All(holds, SchemaOf(t).columns) {
      Each(holds, SchemaOf(t).columns);
    }
    if TableColumns(t, holds) {
      OneByOne(holds, SchemaOf(t).columns);
    }
  }

  lemma MiddleTables(t: nat, holds: Column -> bool)
    requires t == USER_UNITS || t == BUDGETS || t == SPDS
    ensures All(holds, SchemaOf(t).columns) <==> TableColumns(t, holds)
  {
    if All(holds, SchemaOf(t).columns) {
      Each(holds, SchemaOf(t).columns);
    }
    if TableColumns(t, holds) {
      OneByOne(holds, SchemaOf(t).columns);
    }
  }

  lemma LastTables(t: nat, holds: Column -> bool)
    requires t == APPROVALS || t == DOCUMENTS || t == NOTIFICATIONS
    ensures All(holds, SchemaOf(t).columns) <==> TableColumns(t, holds)
  {
    if All(holds, SchemaOf(t).columns) {
      Each(holds, SchemaOf(t).columns);
    }
    if TableColumns(t, holds) {
      OneByOne(holds, SchemaOf(t).columns);
    }
  }

  lemma TableIff(t: nat, holds: Column -> bool)
    requires t < TABLES
    ensures All(holds, SchemaOf(t).columns) <==> TableColumns(t, holds)
  {
    if t <= USERS {
      FirstTables(t, holds);
    } else if t <= SPDS {
      MiddleTables(t, holds);
    } else {
      LastTables(t, holds);
    }
  }

  /** Names that differ in length or in their first, second or ninth letter. */
  predicate Apart(a: string, b: string) {
    || |a| != |b|
    || (|a| > 0 && a[0] != b[0])
    || (|a| > 1 && a[1] != b[1])
    || (|a| > 8 && a[8] != b[8])
  }

  lemma UnitNames()
    ensures Distinct(SchemaOf(UNITS).columns)
  {
    var columns := SchemaOf(UNITS).columns;
    forall i, j | 0 <= i < j < |columns|
      ensures columns[i].name != columns[j].name
    {
      assert Apart(columns[i].name, columns[j].name);
    }
  }

  lemma EmployeeNames()
    ensures Distinct(SchemaOf(EMPLOYEES).columns)
  {
    var columns := SchemaOf(EMPLOYEES).columns;
    forall i, j | 0 <= i < j < |columns|
      ensures columns[i].name != columns[j].name
    {
      assert Apart(columns[i].name, columns[j].name);
    }
  }

  lemma UserNames()
    ensures Distinct(SchemaOf(USERS).columns)
  {
    var columns := SchemaOf(USERS).columns;
    forall i, j | 0 <= i < j < |columns|
      ensures columns[i].name != columns[j].name
    {
      assert Apart(columns[i].name, columns[j].name);
    }
  }

  lemma UserUnitNames()
    ensures Distinct(SchemaOf(USER_UNITS).columns)
  {
    var columns := SchemaOf(USER_UNITS).columns;
    forall i, j | 0 <= i < j < |columns|
      ensures columns[i].name != columns[j].name
    {
      assert Apart(columns[i].name, columns[j].name);
    }
  }

  lemma BudgetNames()
    ensures Distinct(SchemaOf(BUDGETS).columns)
  {
    var columns := SchemaOf(BUDGETS).columns;
    forall i, j | 0 <= i < j < |columns|
      ensures columns[i].name != columns[j].name
    {
      assert Apart(columns[i].name, columns[j].name);
    }
  }

  lemma SpdNames()
    ensures Distinct(SchemaOf(SPDS).columns)
  {
    var columns := SchemaOf(SPDS).columns;
    forall i, j | 0 <= i < j < |columns|
      ensures columns[i].name != columns[j].name
    {
      assert Apart(columns[i].name, columns[j].name);
    }
  }

  lemma ApprovalNames()
    ensures Distinct(SchemaOf(APPROVALS).columns)
  {
    var columns := SchemaOf(APPROVALS).columns;
    forall i, j | 0 <= i < j < |columns|
      ensures columns[i].name != columns[j].name
    {
      assert Apart(columns[i].name, columns[j].name);
    }
  }

  lemma DocumentNames()
    ensures Distinct(SchemaOf(DOCUMENTS).columns)
  {
    var columns := SchemaOf(DOCUMENTS).columns;
    forall i, j | 0 <= i < j < |columns|
      ensures columns[i].name != columns[j].name
    {
      assert Apart(columns[i].name, columns[j].name);
    }
  }

  lemma NotificationNames()
    ensures Distinct(SchemaOf(NOTIFICATIONS).columns)
  {
    var columns := SchemaOf(NOTIFICATIONS).columns;
    forall i, j | 0 <= i < j < |columns|
      ensures columns[i].name != columns[j].name
    {
      assert Apart(columns[i].name, columns[j].name);
    }
  }

  lemma DistinctColumns(t: nat)
    requires t < TABLES
    ensures Distinct(SchemaOf(t).columns)
  {
    UnitNames();
    EmployeeNames();
    UserNames();
    UserUnitNames();
    BudgetNames();
    SpdNames();
    ApprovalNames();
    DocumentNames();
    NotificationNames();
  }

  // ---- Rows

  /** The CSV row is stored as this record of table `t`. */
  predicate Says(cfg: Config, t: nat, row: Row, rec: Record)
    requires t < TABLES
  {
    TableColumns(t, Stored(cfg, row, rec))
  }

  /** A row is converted exactly when its cells say a record, and to such a record. */
  lemma ConvertedIff(cfg: Config, t: nat, row: Row)
    requires t < TABLES
    ensures Converted(cfg, t, row).Some? ==> Says(cfg, t, row, Converted(cfg, t, row).value)
    ensures (exists rec :: Says(cfg, t, row, rec)) ==> Converted(cfg, t, row).Some?
  {
    var columns := SchemaOf(t).columns;
    if Converted(cfg, t, row).Some? {
      DistinctColumns(t);
      RecordStored(cfg, columns, row);
      TableIff(t, Stored(cfg, row, Converted(cfg, t, row).value));
    }
    if rec :| Says(cfg, t, row, rec) {
      TableIff(t, Stored(cfg, row, rec));
      StoredRecord(cfg, columns, row, rec);
    }
  }

  /** The primary key in the cells. */
  predicate KeyCells(t: nat, row: Row, k: Key) {
    match k
    case Id(id) => t != USER_UNITS && Numeral(Str(row, "id"), id)
    case Pair(user, unit) =>
      t == USER_UNITS && Numeral(Str(row, "user_id"), user) && Numeral(Str(row, "unit_id"), unit)
  }

  lemma OneNumber(v: string, n: int, m: int)
    requires Numeral(v, n) && Numeral(v, m)
    ensures n == m
  {
    ReadIntIff(v, n);
    ReadIntIff(v, m);
  }

  lemma NumberStored(cfg: Config, row: Row, rec: Record, name: string, required: bool)
    requires Stored(cfg, row, rec)(Number(name, required))
    ensures forall n :: Numeral(Str(row, name), n) <==> Field(rec, name) == Int(n)
    ensures required ==> Field(rec, name).Int?
    ensures Field(rec, name) == Null || Field(rec, name).Int?
  {
    forall n
      ensures Numeral(Str(row, name), n) <==> Field(rec, name) == Int(n)
    {
      if Numeral(Str(row, name), n) && Field(rec, name).Int? {
        OneNumber(Str(row, name), n, Field(rec, name).i);
      }
    }
  }

  lemma KeyIff(cfg: Config, t: nat, row: Row, rec: Record, k: Key)
    requires t < TABLES && Says(cfg, t, row, rec)
    ensures KeyOf(t, rec) == k <==> KeyCells(t, row, k)
  {
    if t == USER_UNITS {
      NumberStored(cfg, row, rec, "user_id", true);
      NumberStored(cfg, row, rec, "unit_id", true);
    } else {
      NumberStored(cfg, row, rec, "id", true);
    }
  }

  // ---- References and unique columns

  /** If the cell holds a number, that is an id of the table. */
  ghost predicate Finds(row: Row, name: string, table: Table) {
    forall n :: Numeral(Str(row, name), n) ==> Id(n) in table
  }

  /** The foreign keys of the nine tables. */
  ghost predicate FindsAll(t: nat, tables: Tables, row: Row) {
    && (t == EMPLOYEES ==> Finds(row, "unit_id", tables[UNITS]))
    && (t == USERS ==> Finds(row, "employee_id", tables[EMPLOYEES]))
    && (t == USER_UNITS ==> Finds(row, "user_id", tables[USERS]) && Finds(row, "unit_id", tables[UNITS]))
    && (t == BUDGETS ==> Finds(row, "unit_id", tables[UNITS]) && Finds(row, "created_by", tables[USERS]))
    && (t == SPDS ==>
          && Finds(row, "employee_id", tables[EMPLOYEES]) && Finds(row, "unit_id", tables[UNITS])
          && Finds(row, "budget_id", tables[BUDGETS]) && Finds(row, "created_by", tables[USERS]))
    && (t == APPROVALS ==>
          && Finds(row, "spd_id", tables[SPDS]) && Finds(row, "approver_id", tables[USERS])
          && Finds(row, "decided_by", tables[USERS]))
    && (t == DOCUMENTS ==> Finds(row, "spd_id", tables[SPDS]) && Finds(row, "requested_by", tables[USERS]))
    && (t == NOTIFICATIONS ==> Finds(row, "requested_by", tables[USERS]))
  }

  predicate RefFound(tables: Tables, rec: Record, r: Ref) {
    r.table < TABLES && Field(rec, r.column) != Null ==> Id(IntField(rec, r.column)) in tables[r.table]
  }

  lemma RefIff(cfg: Config, tables: Tables, row: Row, rec: Record, name: string, required: bool, table: nat)
    requires table < TABLES && Stored(cfg, row, rec)(Number(name, required))
    ensures RefFound(tables, rec, Ref(name, table)) <==> Finds(row, name, tables[table])
  {
    NumberStored(cfg, row, rec, name, required);
    if RefFound(tables, rec, Ref(name, table)) {
      forall n | Numeral(Str(row, name), n)
        ensures Id(n) in tables[table]
      {
      }
    }
  }

  lemma RefsByOne(t: nat, tables: Tables, rec: Record)
    requires t < TABLES
    ensures RefsFound(t, tables, rec) <==>
      forall i :: 0 <= i < |SchemaOf(t).refs| ==> RefFound(tables, rec, SchemaOf(t).refs[i])
  {
  }

  lemma UpToFour(tables: Tables, rec: Record, refs: seq<Ref>)
    requires |refs| <= 4
    ensures (forall i :: 0 <= i < |refs| ==> RefFound(tables, rec, refs[i])) <==>
      (&& (|refs| > 0 ==> RefFound(tables, rec, refs[0])) && (|refs| > 1 ==> RefFound(tables, rec, refs[1]))
       && (|refs| > 2 ==> RefFound(tables, rec, refs[2])) && (|refs| > 3 ==> RefFound(tables, rec, refs[3])))
  {
  }

  /** No table has more than four foreign keys. */
  lemma AtMostFour(t: nat, tables: Tables, rec: Record)
    requires t < TABLES
    ensures var refs := SchemaOf(t).refs;
      && |refs| <= 4
      && (RefsFound(t, tables, rec) <==>
            && (|refs| > 0 ==> RefFound(tables, rec, refs[0])) && (|refs| > 1 ==> RefFound(tables, rec, refs[1]))
            && (|refs| > 2 ==> RefFound(tables, rec, refs[2])) && (|refs| > 3 ==> RefFound(tables, rec, refs[3])))
  {
    RefsByOne(t, tables, rec);
    UpToFour(tables, rec, SchemaOf(t).refs);
  }

  lemma FewRefs(cfg: Config, t: nat, tables: Tables, row: Row, rec: Record)
    requires t < TABLES && t != SPDS && t != APPROVALS && Says(cfg, t, row, rec)
    ensures RefsFound(t, tables, rec) <==> FindsAll(t, tables, row)
  {
    AtMostFour(t, tables, rec);
    if t == EMPLOYEES {
      RefIff(cfg, tables, row, rec, "unit_id", false, UNITS);
    } else if t == USERS {
      RefIff(cfg, tables, row, rec, "employee_id", false, EMPLOYEES);
    } else if t == USER_UNITS {
      RefIff(cfg, tables, row, rec, "user_id", true, USERS);
      RefIff(cfg, tables, row, rec, "unit_id", true, UNITS);
    } else if t == BUDGETS {
      RefIff(cfg, tables, row, rec, "unit_id", true, UNITS);
      RefIff(cfg, tables, row, rec, "created_by", true, USERS);
    } else if t == DOCUMENTS {
      RefIff(cfg, tables, row, rec, "spd_id", true, SPDS);
      RefIff(cfg, tables, row, rec, "requested_by", true, USERS);
    } else if t == NOTIFICATIONS {
      RefIff(cfg, tables, row, rec, "requested_by", false, USERS);
    }
  }

  lemma SpdRefs(cfg: Config, tables: Tables, row: Row, rec: Record)
    requires Stored(cfg, row, rec)(Number("employee_id", false)) && Stored(cfg, row, rec)(Number("unit_id", true))
    requires Stored(cfg, row, rec)(Number("budget_id", false)) && Stored(cfg, row, rec)(Number("created_by", true))
    ensures RefsFound(SPDS, tables, rec) <==> FindsAll(SPDS, tables, row)
  {
    AtMostFour(SPDS, tables, rec);
    RefIff(cfg, tables, row, rec, "employee_id", false, EMPLOYEES);
    RefIff(cfg, tables, row, rec, "unit_id", true, UNITS);
    RefIff(cfg, tables, row, rec, "budget_id", false, BUDGETS);
    RefIff(cfg, tables, row, rec, "created_by", true, USERS);
  }

  lemma ApprovalRefs(cfg: Config, tables: Tables, row: Row, rec: Record)
    requires Says(cfg, APPROVALS, row, rec)
    ensures RefsFound(APPROVALS, tables, rec) <==> FindsAll(APPROVALS, tables, row)
  {
    AtMostFour(APPROVALS, tables, rec);
    RefIff(cfg, tables, row, rec, "spd_id", true, SPDS);
    RefIff(cfg, tables, row, rec, "approver_id", false, USERS);
    RefIff(cfg, tables, row, rec, "decided_by", false, USERS);
  }

  lemma RefsIff(cfg: Config, t: nat, tables: Tables, row: Row, rec: Record)
    requires t < TABLES && Says(cfg, t, row, rec)
    ensures RefsFound(t, tables, rec) <==> FindsAll(t, tables, row)
  {
    if t == SPDS {
      SpdRefs(cfg, tables, row, rec);
    } else if t == APPROVALS {
      ApprovalRefs(cfg, tables, row, rec);
    } else {
      FewRefs(cfg, t, tables, row, rec);
    }
  }

  predicate Holds(rec: Record, name: string, v: string) {
    name in rec && rec[name] == Text(v)
  }

  /** The record already has the row's value in the unique column of the table. */
  predicate Taken(t: nat, rec: Record, row: Row) {
    || (t == UNITS && Holds(rec, "code", Str(row, "code")))
    || (t == EMPLOYEES && Holds(rec, "nip", Str(row, "nip")))
    || (t == USERS && Holds(rec, "username", Str(row, "username")))
    || (t == SPDS && Holds(rec, "nomor_surat", Str(row, "nomor_surat")))
  }

  predicate SameCells(t: nat, a: Row, b: Row) {
    || (t == UNITS && Str(a, "code") == Str(b, "code"))
    || (t == EMPLOYEES && Str(a, "nip") == Str(b, "nip"))
    || (t == USERS && Str(a, "username") == Str(b, "username"))
    || (t == SPDS && Str(a, "nomor_surat") == Str(b, "nomor_surat"))
  }

  lemma TextStored(cfg: Config, row: Row, rec: Record, name: string, limit: Limit)
    requires Stored(cfg, row, rec)(Words(name, "", limit))
    ensures Field(rec, name) == Text(Str(row, name))
  {
  }

  /** The unique column of a table that has one holds the text of its cell. */
  lemma UniqueText(cfg: Config, t: nat, row: Row, rec: Record)
    requires t < TABLES && Says(cfg, t, row, rec)
    ensures Taken(t, rec, row) <==> t == UNITS || t == EMPLOYEES || t == USERS || t == SPDS
  {
    if t == UNITS {
      TextStored(cfg, row, rec, "code", Any);
    } else if t == EMPLOYEES {
      TextStored(cfg, row, rec, "nip", Any);
    } else if t == USERS {
      TextStored(cfg, row, rec, "username", Any);
    } else if t == SPDS {
      TextStored(cfg, row, rec, "nomor_surat", AtMost(50));
    }
  }

  lemma TakenIff(cfg: Config, t: nat, a: Record, row: Row, rec: Record)
    requires t < TABLES && Says(cfg, t, row, rec)
    ensures SameUnique(t, a, rec) <==> Taken(t, a, row)
  {
    UniqueText(cfg, t, row, rec);
  }

  lemma TwinIff(cfg: Config, t: nat, rowA: Row, a: Record, rowB: Row, b: Record)
    requires t < TABLES && Says(cfg, t, rowA, a) && Says(cfg, t, rowB, b)
    ensures SameUnique(t, a, b) <==> SameCells(t, rowA, rowB)
  {
    UniqueText(cfg, t, rowA, a);
    TakenIff(cfg, t, a, rowB, b);
  }

  // ---- Files

  /** Row `i` is the first of its file with key `k`, which is new to the table. */
  predicate Opens(t: nat, table: Table, rows: seq<Row>, i: nat, k: Key) {
    i < |rows| && KeyCells(t, rows[i], k) && k !in table && forall j :: 0 <= j < i ==> !KeyCells(t, rows[j], k)
  }

  ghost predicate Sayable(cfg: Config, t: nat, row: Row)
    requires t < TABLES
  {
    exists rec :: Says(cfg, t, row, rec)
  }

  lemma OpensIff(cfg: Config, t: nat, table: Table, rows: seq<Row>, i: nat, rec: Record)
    requires t < TABLES && AllConvert(cfg, t, rows) && i < |rows| && Converted(cfg, t, rows[i]) == Some(rec)
    ensures FirstRow(cfg, t, table, rows, i, rec) <==> Opens(t, table, rows, i, KeyOf(t, rec))
  {
    forall j | 0 <= j <= i
      ensures HasKey(cfg, t, rows[j], KeyOf(t, rec)) <==> KeyCells(t, rows[j], KeyOf(t, rec))
    {
      ConvertedIff(cfg, t, rows[j]);
      KeyIff(cfg, t, rows[j], Converted(cfg, t, rows[j]).value, KeyOf(t, rec));
    }
  }

  lemma OpenerConverted(cfg: Config, t: nat, table: Table, rows: seq<Row>, i: nat, k: Key)
    requires t < TABLES && AllConvert(cfg, t, rows) && Opens(t, table, rows, i, k)
    ensures var rec := Converted(cfg, t, rows[i]).value;
      FirstRow(cfg, t, table, rows, i, rec) && KeyOf(t, rec) == k && Says(cfg, t, rows[i], rec)
  {
    var rec := Converted(cfg, t, rows[i]).value;
    ConvertedIff(cfg, t, rows[i]);
    KeyIff(cfg, t, rows[i], rec, k);
    OpensIff(cfg, t, table, rows, i, rec);
  }

  /** The old rows stay, every new key comes from a row of the file, and the first row with a new key
      is stored: each column as its own cell says. */
  ghost predicate Imported(cfg: Config, t: nat, table: Table, table': Table, rows: seq<Row>)
    requires t < TABLES
  {
    && (forall k :: k in table ==> k in table' && table'[k] == table[k])
    && (forall k :: k in table' && k !in table ==> exists i: nat :: Opens(t, table, rows, i, k))
    && (forall i: nat, k :: Opens(t, table, rows, i, k) ==> k in table' && Says(cfg, t, rows[i], table'[k]))
  }

  lemma FirstWinsImported(cfg: Config, t: nat, table: Table, table': Table, rows: seq<Row>)
    requires t < TABLES && AllConvert(cfg, t, rows) && FirstWins(cfg, t, table, table', rows)
    ensures Imported(cfg, t, table, table', rows)
  {
    forall k | k in table' && k !in table
      ensures exists i: nat :: Opens(t, table, rows, i, k)
    {
      var i: nat :| FirstRow(cfg, t, table, rows, i, table'[k]) && KeyOf(t, table'[k]) == k;
      OpensIff(cfg, t, table, rows, i, table'[k]);
    }
    forall i: nat, k | Opens(t, table, rows, i, k)
      ensures k in table' && Says(cfg, t, rows[i], table'[k])
    {
      OpenerConverted(cfg, t, table, rows, i, k);
    }
  }

  /** A file can be imported: each row says a record, and the first row of each new key refers to rows
      that exist and takes no unique value of the table or of another such row. */
  ghost predicate Importable(cfg: Config, t: nat, tables: Tables, rows: seq<Row>)
    requires t < TABLES
  {
    && (forall i :: 0 <= i < |rows| ==> Sayable(cfg, t, rows[i]))
    && (forall i: nat, k :: Opens(t, tables[t], rows, i, k) ==> FindsAll(t, tables, rows[i]))
    && (forall i: nat, k, l :: Opens(t, tables[t], rows, i, k) && l in tables[t] ==> !Taken(t, tables[t][l], rows[i]))
    && (forall i: nat, k, j: nat, l :: Opens(t, tables[t], rows, i, k) && Opens(t, tables[t], rows, j, l) && i < j ==>
          !SameCells(t, rows[i], rows[j]))
  }

  lemma ConvertIff(cfg: Config, t: nat, rows: seq<Row>)
    requires t < TABLES
    ensures AllConvert(cfg, t, rows) <==> forall i :: 0 <= i < |rows| ==> Sayable(cfg, t, rows[i])
  {
    forall i | 0 <= i < |rows|
      ensures Converted(cfg, t, rows[i]).Some? <==> Sayable(cfg, t, rows[i])
    {
      ConvertedIff(cfg, t, rows[i]);
    }
  }

  /** A first row that is acceptable in its record is so in its cells. */
  lemma FitsCells(cfg: Config, t: nat, tables: Tables, rows: seq<Row>, i: nat, k: Key)
    requires t < TABLES && AllConvert(cfg, t, rows) && Opens(t, tables[t], rows, i, k)
    ensures var rec := Converted(cfg, t, rows[i]).value;
      RefsFound(t, tables, rec) && !Clashes(t, tables[t], rec) <==>
        FindsAll(t, tables, rows[i]) && forall l :: l in tables[t] ==> !Taken(t, tables[t][l], rows[i])
  {
    var rec := Converted(cfg, t, rows[i]).value;
    ConvertedIff(cfg, t, rows[i]);
    RefsIff(cfg, t, tables, rows[i], rec);
    forall l | l in tables[t]
      ensures SameUnique(t, tables[t][l], rec) <==> Taken(t, tables[t][l], rows[i])
    {
      TakenIff(cfg, t, tables[t][l], rows[i], rec);
    }
  }

  lemma FitIff(cfg: Config, t: nat, tables: Tables, rows: seq<Row>)
    requires t < TABLES && AllConvert(cfg, t, rows)
    ensures AllFit(cfg, t, tables, rows) <==>
      (&& (forall i: nat, k :: Opens(t, tables[t], rows, i, k) ==> FindsAll(t, tables, rows[i]))
       && (forall i: nat, k, l :: Opens(t, tables[t], rows, i, k) && l in tables[t] ==> !Taken(t, tables[t][l], rows[i])))
  {
    forall i: nat, k | Opens(t, tables[t], rows, i, k)
      ensures FirstRow(cfg, t, tables[t], rows, i, Converted(cfg, t, rows[i]).value)
      ensures RefsFound(t, tables, Converted(cfg, t, rows[i]).value) && !Clashes(t, tables[t], Converted(cfg, t, rows[i]).value) <==>
        FindsAll(t, tables, rows[i]) && forall l :: l in tables[t] ==> !Taken(t, tables[t][l], rows[i])
    {
      OpenerConverted(cfg, t, tables[t], rows, i, k);
      FitsCells(cfg, t, tables, rows, i, k);
    }
    forall i: nat, rec | FirstRow(cfg, t, tables[t], rows, i, rec)
      ensures Opens(t, tables[t], rows, i, KeyOf(t, rec))
    {
      OpensIff(cfg, t, tables[t], rows, i, rec);
    }
  }

  lemma TwinsIff(cfg: Config, t: nat, table: Table, rows: seq<Row>)
    requires t < TABLES && AllConvert(cfg, t, rows)
    ensures NoTwins(cfg, t, table, rows) <==>
      forall i: nat, k, j: nat, l :: Opens(t, table, rows, i, k) && Opens(t, table, rows, j, l) && i < j ==>
        !SameCells(t, rows[i], rows[j])
  {
    forall i: nat, k, j: nat, l | Opens(t, table, rows, i, k) && Opens(t, table, rows, j, l) && i < j
      ensures var a, b := Converted(cfg, t, rows[i]).value, Converted(cfg, t, rows[j]).value;
        FirstRow(cfg, t, table, rows, i, a) && FirstRow(cfg, t, table, rows, j, b)
        && (SameUnique(t, a, b) <==> SameCells(t, rows[i], rows[j]))
    {
      OpenerConverted(cfg, t, table, rows, i, k);
      OpenerConverted(cfg, t, table, rows, j, l);
      TwinIff(cfg, t, rows[i], Converted(cfg, t, rows[i]).value, rows[j], Converted(cfg, t, rows[j]).value);
    }
    forall i: nat, rec | FirstRow(cfg, t, table, rows, i, rec)
      ensures Opens(t, table, rows, i, KeyOf(t, rec))
    {
      OpensIff(cfg, t, table, rows, i, rec);
    }
  }

  /** The transaction of a file, told by its cells: it commits exactly when the file can be imported,
      and then stores what the first rows of the new keys say and touches no other table. */
  lemma ImportExact(cfg: Config, t: nat, tables: Tables, rows: seq<Row>)
    requires t < TABLES
    ensures var after := ImportRows(cfg, t, tables, rows);
      && (after.Some? <==> Importable(cfg, t, tables, rows))
      && (after.Some? ==> Imported(cfg, t, tables[t], after.value[t], rows) && SameElsewhere(t, tables, after.value))
  {
    FileExact(cfg, t, tables, rows);
    ConvertIff(cfg, t, rows);
    if AllConvert(cfg, t, rows) {
      FitIff(cfg, t, tables, rows);
      TwinsIff(cfg, t, tables[t], rows);
      if ImportRows(cfg, t, tables, rows).Some? {
        FirstWinsImported(cfg, t, tables[t], ImportRows(cfg, t, tables, rows).value[t], rows);
      }
    }
  }
}
