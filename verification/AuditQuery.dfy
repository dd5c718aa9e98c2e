/** The audit log query: the builder that grows a WHERE clause and its argument list, the decimal
    printer it numbers placeholders with, and a reader of the finished SQL text that gives the
    text's meaning back. */
module AuditQuery {
  import opened Wrappers
  import opened Decimal

  datatype QueryInput = QueryInput(
    action: string, userId: Option<int>, from: Option<int>, to: Option<int>,
    limit: int, offset: int, resource: string)

  /** A row of audit_logs; the address is already cast to text. */
  datatype Row = Row(
    id: int, action: string, resourceType: string, resourceId: Option<int>, userId: int, role: string,
    ipAddress: Option<string>, userAgent: Option<string>, metadata: string, timestamp: int)

  datatype Value = Null | Text(s: string) | Number(n: int) | Time(t: int)

  datatype Column =
    Id | Action | ResourceType | ResourceId | UserId | Role | IpAddress | UserAgent | Metadata | Timestamp

  datatype Comparison = Equal | AtLeast | AtMost

  /** `column comparison $arg` */
  datatype Condition = Condition(column: Column, comparison: Comparison, arg: nat)

  datatype Filter = Filter(column: Column, comparison: Comparison, value: Value)

  function ColumnName(c: Column): string {
    match c
    case Id => "id"
    case Action => "action"
    case ResourceType => "resource_type"
    case ResourceId => "resource_id"
    case UserId => "user_id"
    case Role => "role"
    case IpAddress => "ip_address::text"
    case UserAgent => "user_agent"
    case Metadata => "metadata"
    case Timestamp => "timestamp"
  }

  function Sign(c: Comparison): string {
    match c
    case Equal => "="
    case AtLeast => ">="
    case AtMost => "<="
  }

  // ---- The placeholder printer

  /** itoa: digits are written backwards into a buffer of 20 characters. */
  method Itoa(i: int) returns (s: string)
    requires i < 0x8000_0000_0000_0000
    ensures s == if i < 0 then "" else Print(i)
  {
    if i == 0 {
      return "0";
    }
    var buf := new char[20](_ => '0');
    var pos := buf.Length;
    var n := i;
    FitsNineteen();
    while n > 0
      invariant 0 <= pos <= 20 && Fits(n, pos)
      invariant i < 0 ==> n == i && pos == 20
      invariant Leading(i) == Leading(n) + buf[pos..]
    {
      FitsStep(n, pos);
      LeadingStep(n);
      Regroup(Leading(n / 10), [Digit(n % 10)], buf[pos..]);
      ghost var printed := buf[pos..];
      pos := pos - 1;
      buf[pos] := Digit(n % 10);
      assert buf[pos..] == [Digit(n % 10)] + printed;
      n := n / 10;
    }
    s := buf[pos..];
  }

  lemma Regroup(a: string, b: string, c: string)
    ensures (a + b) + c == a + (b + c)
  {
  }

  /** The digits still to be printed. */
  function Leading(n: int): string {
    if n > 0 then Print(n) else ""
  }

  lemma LeadingStep(n: int)
    requires n > 0
    ensures Leading(n) == Leading(n / 10) + [Digit(n % 10)]
  {
  }

  /** A number with room for one more digit than it has. */
  predicate Fits(n: int, room: int) {
    room >= 1 && n < Pow10(room - 1)
  }

  lemma FitsStep(n: int, room: int)
    requires n > 0 && Fits(n, room)
    ensures Fits(n / 10, room - 1)
  {
  }

  lemma FitsNineteen()
    ensures forall n :: n < 0x8000_0000_0000_0000 ==> Fits(n, 20)
  {
    assert Pow10(10) == 10_000_000_000;
    assert Pow10(14) == 100_000_000_000_000;
    assert Pow10(18) == 1_000_000_000_000_000_000;
  }

  // ---- The builder

  /** The filters that a query asks for, in the order in which the builder takes them. */
  function Filters(q: QueryInput): seq<Filter> {
    var f0: seq<Filter> := [];
    var f1 := if q.action != "" then f0 + [Filter(Action, Equal, Text(q.action))] else f0;
    var f2 := if q.resource != "" then f1 + [Filter(ResourceType, Equal, Text(q.resource))] else f1;
    var f3 := if q.userId.Some? then f2 + [Filter(UserId, Equal, Number(q.userId.value))] else f2;
    var f4 := if q.from.Some? then f3 + [Filter(Timestamp, AtLeast, Time(q.from.value))] else f3;
    if q.to.Some? then f4 + [Filter(Timestamp, AtMost, Time(q.to.value))] else f4
  }

  function ConditionText(column: Column, comparison: Comparison, arg: nat): string {
    " AND " + ColumnName(column) + " " + Sign(comparison) + " $" + Print(arg)
  }

  /** The conditions of a list of filters, numbered from k. */
  function ConditionsText(fs: seq<Filter>, k: nat): string {
    if fs == [] then "" else ConditionText(fs[0].column, fs[0].comparison, k) + ConditionsText(fs[1..], k + 1)
  }

  function Values(fs: seq<Filter>): seq<Value> {
    seq(|fs|, i requires 0 <= i < |fs| => fs[i].value)
  }

  /** The selected columns, in the order of the statement. */
  const COLUMNS: seq<Column> :=
    [Id, Action, ResourceType, ResourceId, UserId, Role, IpAddress, UserAgent, Metadata, Timestamp]

  function ListText(cs: seq<Column>): string
    requires cs != []
  {
    if |cs| == 1 then ColumnName(cs[0]) else ColumnName(cs[0]) + (", " + ListText(cs[1..]))
  }

  /** Words with one blank between them. */
  function Spaced(ws: seq<string>): string {
    if ws == [] then "" else if |ws| == 1 then ws[0] else ws[0] + (" " + Spaced(ws[1..]))
  }

  /** The gap before each clause. */
  const LINE := "\n\t\t\t"

  const FROM_CLAUSE := ["FROM", "audit_logs"]
  const ORDER_CLAUSE := ["ORDER", "BY", "timestamp", "DESC"]

  /** The statement, given its WHERE clause and the numbers of its last two placeholders. */
  function Statement(where: string, limitPos: string, offsetPos: string): string {
    Clauses(COLUMNS, Spaced(FROM_CLAUSE), where, Spaced(ORDER_CLAUSE), limitPos, offsetPos)
  }

  function Clauses(cs: seq<Column>, from: string, where: string, order: string, limitPos: string, offsetPos: string): string
    requires cs != []
  {
    LINE + ("SELECT" + (" " + (ListText(cs) + (LINE + (from + (LINE + (where + (LINE + (order
      + (LINE + ("LIMIT" + (" $" + (limitPos + (" OFFSET $" + (offsetPos + "\n\t\t")))))))))))))))
  }

  function QueryText(fs: seq<Filter>): string {
    Statement(WhereText(fs), Print(|fs| + 1), Print(|fs| + 2))
  }

  function WhereText(fs: seq<Filter>): string {
    "WHERE 1=1" + ConditionsText(fs, 1)
  }

  lemma {:induction false} ConditionsAppend(fs: seq<Filter>, f: Filter, k: nat)
    ensures ConditionsText(fs + [f], k) == ConditionsText(fs, k) + ConditionText(f.column, f.comparison, k + |fs|)
  {
    if fs == [] {
      assert fs + [f] == [f];
      assert ConditionsText([f][1..], k + 1) == "";
    } else {
      assert (fs + [f])[1..] == fs[1..] + [f];
      ConditionsAppend(fs[1..], f, k + 1);
    }
  }

  /** One `if` of the builder: append the value, then the condition that refers to it. */
  method AddFilter(ghost fs: seq<Filter>, args: seq<Value>, where: string, f: Filter)
      returns (ghost fs': seq<Filter>, args': seq<Value>, where': string)
    requires args == Values(fs) && where == WhereText(fs) && |fs| < 5
    ensures fs' == fs + [f]
    ensures args' == Values(fs + [f]) && where' == WhereText(fs + [f])
  {
    fs' := fs + [f];
    args' := args + [f.value];
    var number := Itoa(|args'|);
    where' := where + (" AND " + ColumnName(f.column) + " " + Sign(f.comparison) + " $" + number);
    ConditionsAppend(fs, f, 1);
    Regroup("WHERE 1=1", ConditionsText(fs, 1), ConditionText(f.column, f.comparison, 1 + |fs|));
  }

  method BuildWhere(q: QueryInput) returns (args: seq<Value>, where: string)
    ensures args == Values(Filters(q)) && where == WhereText(Filters(q))
  {
    ghost var fs: seq<Filter> := [];
    args := [];
    where := "WHERE 1=1";
    assert where == WhereText(fs);
    if q.action != "" {
      fs, args, where := AddFilter(fs, args, where, Filter(Action, Equal, Text(q.action)));
    }
    if q.resource != "" {
      fs, args, where := AddFilter(fs, args, where, Filter(ResourceType, Equal, Text(q.resource)));
    }
    if q.userId.Some? {
      fs, args, where := AddFilter(fs, args, where, Filter(UserId, Equal, Number(q.userId.value)));
    }
    if q.from.Some? {
      fs, args, where := AddFilter(fs, args, where, Filter(Timestamp, AtLeast, Time(q.from.value)));
    }
    if q.to.Some? {
      fs, args, where := AddFilter(fs, args, where, Filter(Timestamp, AtMost, Time(q.to.value)));
    }
  }

  method BuildQuery(q: QueryInput) returns (text: string, args: seq<Value>)
    ensures text == QueryText(Filters(q)) && args == Arguments(q)
  {
    var where;
    args, where := BuildWhere(q);
    args := args + [Number(q.limit)];
    var limitPos := Itoa(|args|);
    args := args + [Number(q.offset)];
    var offsetPos := Itoa(|args|);
    text := Statement(where, limitPos, offsetPos);
  }

  /** The argument list: the filters' values, then the page. */
  function Arguments(q: QueryInput): seq<Value> {
    Values(Filters(q)) + [Number(q.limit)] + [Number(q.offset)]
  }
}
