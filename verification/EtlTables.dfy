/** What the importer does with one file: its columns, the conversion of a row, the INSERT that it
    runs for each row, and the one transaction around the file. */
module EtlTables {
  import opened Wrappers
  import Decimal

  // ---- Values and columns

  /** `Now` stands for a NOW() default and `Sealed` for a ciphertext with its associated data, whose
      nonce is left out. */
  datatype Value =
    Null | Int(i: int) | Text(s: string) | Bool(b: bool) | Time(at: int) | Now | Sealed(plain: string, aad: string)

  datatype Limit = Any | AtMost(chars: nat) | OneOf(words: set<string>)

  /** One column of an INSERT: how its value is made from the row, and its row-local constraint. */
  datatype Column =
    | Number(name: string, required: bool)
    | Instant(name: string, orNow: bool)
    | Words(name: string, default: string, limit: Limit)
    | Encrypted(name: string, aad: string)
    | Toggle(name: string, on: bool)
    | StepNumber(name: string)
    | NonEmpty(name: string)

  datatype Ref = Ref(column: string, table: nat)

  /** `unique` is the unique column besides the primary key. */
  datatype Schema = Schema(columns: seq<Column>, unique: Option<string>, refs: seq<Ref>)

  const TABLES := 9
  const UNITS := 0
  const EMPLOYEES := 1
  const USERS := 2
  const USER_UNITS := 3
  const BUDGETS := 4
  const SPDS := 5
  const APPROVALS := 6
  const DOCUMENTS := 7
  const NOTIFICATIONS := 8

  const ID := Number("id", true)
  const CREATED := Instant("created_at", true)
  const UPDATED := Instant("updated_at", true)
  const DELETED := Instant("deleted_at", false)

  function Plain(name: string): Column {
    Words(name, "", Any)
  }

  /** The tables in the order in which they are imported. */
  function SchemaOf(t: nat): Schema
    requires t < TABLES
  {
    if t == UNITS then
      Schema([ID, Plain("code"), Plain("name"), CREATED, UPDATED, DELETED], Some("code"), [])
    else if t == EMPLOYEES then
      Schema([ID, Plain("nip"), Plain("name"), Number("unit_id", false), CREATED, UPDATED, DELETED],
             Some("nip"), [Ref("unit_id", UNITS)])
    else if t == USERS then
      Schema([ID, Plain("username"), NonEmpty("password_hash"), Plain("role"), Number("employee_id", false),
              Toggle("is_active", true), Toggle("mfa_enabled", false), Instant("last_login_at", false),
              CREATED, UPDATED, DELETED],
             Some("username"), [Ref("employee_id", EMPLOYEES)])
    else if t == USER_UNITS then
      Schema([Number("user_id", true), Number("unit_id", true), CREATED],
             None, [Ref("user_id", USERS), Ref("unit_id", UNITS)])
    else if t == BUDGETS then
      Schema([ID, Number("unit_id", true), Number("created_by", true), Encrypted("amount", "budgets:amount"),
              Encrypted("source", "budgets:source"), Plain("description"), CREATED, UPDATED, DELETED],
             None, [Ref("unit_id", UNITS), Ref("created_by", USERS)])
    else if t == SPDS then
      Schema([ID, Words("nomor_surat", "", AtMost(50)), Number("employee_id", false), Number("unit_id", true),
              Number("budget_id", false), Encrypted("purpose", "spds:purpose"),
              Encrypted("total_cost", "spds:total_cost"),
              Words("status", "DRAFT", OneOf({"DRAFT", "SUBMITTED", "APPROVED", "REJECTED", "CANCELLED"})),
              Number("current_approver_id", false), Number("created_by", true), CREATED, UPDATED, DELETED],
             Some("nomor_surat"),
             [Ref("employee_id", EMPLOYEES), Ref("unit_id", UNITS), Ref("budget_id", BUDGETS), Ref("created_by", USERS)])
    else if t == APPROVALS then
      Schema([ID, Number("spd_id", true), StepNumber("step"), Number("approver_id", false),
              Words("status", "PENDING", OneOf({"PENDING", "APPROVED", "REJECTED"})), Plain("comment"),
              Number("decided_by", false), Instant("decided_at", false), CREATED, UPDATED],
             None, [Ref("spd_id", SPDS), Ref("approver_id", USERS), Ref("decided_by", USERS)])
    else if t == DOCUMENTS then
      Schema([ID, Number("spd_id", true), Words("format", "", AtMost(10)), Plain("object_key"),
              Number("requested_by", true), CREATED],
             None, [Ref("spd_id", SPDS), Ref("requested_by", USERS)])
    else
      Schema([ID, Plain("channel"), Plain("recipient"), Plain("subject"), Plain("body"),
              Words("status", "QUEUED", Any), Number("requested_by", false), CREATED,
              Instant("sent_at", false), DELETED],
             None, [Ref("requested_by", USERS)])
  }

  // ---- Cells

  type Row = map<string, string>

  const MAX_INT64 := 0x7fff_ffff_ffff_ffff
  const MAX_INT32 := 0x7fff_ffff

  function Str(row: Row, name: string): (v: string)
    ensures name in row ==> v == row[name]
    ensures name !in row ==> v == ""
  {
    if name in row then row[name] else ""
  }

  /** An optional sign and decimal digits. */
  function ReadInt(s: string): Option<int> {
    if s == "" then None
    else
      var digits := if s[0] == '+' || s[0] == '-' then s[1..] else s;
      if digits == "" || !Decimal.AllDigits(digits) then None
      else
        var n: int := Decimal.Value(digits);
        Some(if s[0] == '-' then -n else n)
  }

  function ParseInt64(s: string): Option<int> {
    var n := ReadInt(s);
    if n.Some? && -MAX_INT64 - 1 <= n.value <= MAX_INT64 then n else None
  }

  /** Atoi with its error ignored: 0 for malformed text, the nearest bound for a number out of range. */
  function Atoi(s: string): int {
    match ReadInt(s)
    case None => 0
    case Some(n) => if n > MAX_INT64 then MAX_INT64 else if n < -MAX_INT64 - 1 then -MAX_INT64 - 1 else n
  }

  function Lower(s: string): string {
    seq(|s|, i requires 0 <= i < |s| => if 'A' <= s[i] <= 'Z' then s[i] + 32 as char else s[i])
  }

  predicate Within(s: string, limit: Limit) {
    match limit
    case Any => true
    case AtMost(n) => |s| <= n
    case OneOf(words) => s in words
  }

  /** `parseTime` tries the five layouts; `bound`: the row policies bind the importer's connection, which
      they do not for a table owner. */
  datatype Config = Config(parseTime: string -> Option<int>, bound: bool)

  /** None is an error, which ends the transaction. */
  function CellOf(cfg: Config, c: Column, row: Row): Option<Value> {
    var v := Str(row, c.name);
    match c
    case Number(_, required) =>
      if v == "" then if required then None else Some(Null)
      else var n := ParseInt64(v); if n.None? then None else Some(Int(n.value))
    case Instant(_, orNow) =>
      if v == "" then Some(if orNow then Now else Null)
      else var at := cfg.parseTime(v); if at.None? then None else Some(Time(at.value))
    case Words(_, default, limit) =>
      var w := if v == "" then default else v;
      if Within(w, limit) then Some(Text(w)) else None
    case Encrypted(_, aad) => Some(if v == "" then Null else Sealed(v, aad))
    case Toggle(_, on) =>
      Some(Bool(if on then Lower(v) !in {"0", "f", "false", "n", "no"} else Lower(v) in {"1", "t", "true", "y", "yes"}))
    case StepNumber(_) =>
      var n := Atoi(v);
      if -MAX_INT32 - 1 <= n <= MAX_INT32 then Some(Int(n)) else None
    case NonEmpty(_) => if v == "" then None else Some(Text(v))
  }

  type Record = map<string, Value>

  function RecordOf(cfg: Config, columns: seq<Column>, row: Row): Option<Record> {
    if columns == [] then Some(map[])
    else
      var c := columns[|columns| - 1];
      var before := RecordOf(cfg, columns[..|columns| - 1], row);
      var v := CellOf(cfg, c, row);
      if before.None? || v.None? then None else Some(before.value[c.name := v.value])
  }

  // ---- Tables

  datatype Key = Id(id: int) | Pair(user: int, unit: int)

  type Table = map<Key, Record>

  type Tables = ts: seq<Table> | |ts| == TABLES witness seq(TABLES, _ => map[])

  function Field(rec: Record, name: string): Value {
    if name in rec then rec[name] else Null
  }

  function IntField(rec: Record, name: string): int {
    match Field(rec, name)
    case Int(i) => i
    case _ => 0
  }

  function KeyOf(t: nat, rec: Record): Key {
    if t == USER_UNITS then Pair(IntField(rec, "user_id"), IntField(rec, "unit_id")) else Id(IntField(rec, "id"))
  }

  /** Two rows hold the same non-null value in the unique column. */
  predicate SameUnique(t: nat, a: Record, b: Record)
    requires t < TABLES
  {
    var u := SchemaOf(t).unique;
    u.Some? && Field(a, u.value) != Null && Field(a, u.value) == Field(b, u.value)
  }

  predicate Clashes(t: nat, table: Table, rec: Record)
    requires t < TABLES
  {
    exists k :: k in table && SameUnique(t, table[k], rec)
  }

  predicate RefsFound(t: nat, tables: Tables, rec: Record)
    requires t < TABLES
  {
    forall r :: r in SchemaOf(t).refs && r.table < TABLES && Field(rec, r.column) != Null ==>
      Id(IntField(rec, r.column)) in tables[r.table]
  }

  /** INSERT ... ON CONFLICT DO NOTHING on the primary key. */
  function Insert(t: nat, tables: Tables, rec: Record): Option<Tables>
    requires t < TABLES
  {
    var key := KeyOf(t, rec);
    if key in tables[t] then Some(tables)
    else if Clashes(t, tables[t], rec) || !RefsFound(t, tables, rec) then None
    else Some(tables[t := tables[t][key := rec]])
  }

  function Converted(cfg: Config, t: nat, row: Row): Option<Record>
    requires t < TABLES
  {
    RecordOf(cfg, SchemaOf(t).columns, row)
  }

  /** One row: its conversion, then its INSERT. */
  function ImportRow(cfg: Config, t: nat, tables: Tables, row: Row): Option<Tables>
    requires t < TABLES
  {
    var rec := Converted(cfg, t, row);
    if rec.None? then None else Insert(t, tables, rec.value)
  }

  /** The transaction of one file after its rows; None when it was rolled back. */
  function ImportRows(cfg: Config, t: nat, tables: Tables, rows: seq<Row>): Option<Tables>
    requires t < TABLES
  {
    if rows == [] then Some(tables)
    else
      var before := ImportRows(cfg, t, tables, rows[..|rows| - 1]);
      if before.None? then None else ImportRow(cfg, t, before.value, rows[|rows| - 1])
  }

  // ---- The file as a whole: only the first row of each key matters

  predicate HasKey(cfg: Config, t: nat, row: Row, k: Key)
    requires t < TABLES
  {
    Converted(cfg, t, row).Some? && KeyOf(t, Converted(cfg, t, row).value) == k
  }

  /** Row `i` converts to `rec`, whose key is neither in the table nor in an earlier row. */
  predicate FirstRow(cfg: Config, t: nat, table: Table, rows: seq<Row>, i: nat, rec: Record)
    requires t < TABLES
  {
    && i < |rows| && Converted(cfg, t, rows[i]) == Some(rec)
    && KeyOf(t, rec) !in table
    && forall j :: 0 <= j < i ==> !HasKey(cfg, t, rows[j], KeyOf(t, rec))
  }

  predicate AllConvert(cfg: Config, t: nat, rows: seq<Row>)
    requires t < TABLES
  {
    forall i :: 0 <= i < |rows| ==> Converted(cfg, t, rows[i]).Some?
  }

  ghost predicate AllFit(cfg: Config, t: nat, tables: Tables, rows: seq<Row>)
    requires t < TABLES
  {
    forall i, rec :: FirstRow(cfg, t, tables[t], rows, i, rec) ==>
      RefsFound(t, tables, rec) && !Clashes(t, tables[t], rec)
  }

  ghost predicate NoTwins(cfg: Config, t: nat, table: Table, rows: seq<Row>)
    requires t < TABLES
  {
    forall i, a, j, b :: FirstRow(cfg, t, table, rows, i, a) && FirstRow(cfg, t, table, rows, j, b) && i < j ==>
      !SameUnique(t, a, b)
  }

  /** Every row converts, and the first rows of the new keys find what they refer to and share no
      unique value with a row of the table or with each other. */
  ghost predicate Acceptable(cfg: Config, t: nat, tables: Tables, rows: seq<Row>)
    requires t < TABLES
  {
    && AllConvert(cfg, t, rows)
    && AllFit(cfg, t, tables, rows)
    && NoTwins(cfg, t, tables[t], rows)
  }

  /** Old rows stay, and each new key has the record of its first row; there is nothing else. */
  ghost predicate FirstWins(cfg: Config, t: nat, table: Table, table': Table, rows: seq<Row>)
    requires t < TABLES
  {
    && (forall k :: k in table ==> k in table' && table'[k] == table[k])
    && (forall k :: k in table' && k !in table ==>
          exists i: nat :: FirstRow(cfg, t, table, rows, i, table'[k]) && KeyOf(t, table'[k]) == k)
    && (forall i, rec :: FirstRow(cfg, t, table, rows, i, rec) ==>
          KeyOf(t, rec) in table' && table'[KeyOf(t, rec)] == rec)
  }
}
