/** What the text of the audit query means: a reader that takes any statement of its shape apart, the
    answers of the statement that it has read, and their agreement with what the caller asked for. */
module AuditMeaning {
  import opened Wrappers
  import opened AuditQuery
  import Decimal

  // ---- Words

  predicate IsBlank(c: char) {
    c == ' ' || c == '\n' || c == '\t'
  }

  predicate IsWord(w: string) {
    w != "" && forall i :: 0 <= i < |w| ==> !IsBlank(w[i])
  }

  predicate AllBlank(s: string) {
    forall i :: 0 <= i < |s| ==> IsBlank(s[i])
  }

  /** How many characters come before the first blank. */
  function WordLength(s: string): (n: nat)
    ensures n <= |s|
    ensures forall i :: 0 <= i < n ==> !IsBlank(s[i])
    ensures n < |s| ==> IsBlank(s[n])
  {
    if s == [] || IsBlank(s[0]) then 0 else 1 + WordLength(s[1..])
  }

  function Words(s: string): seq<string>
    decreases |s|
  {
    if s == [] then []
    else if IsBlank(s[0]) then Words(s[1..])
    else
      var n := WordLength(s);
      [s[..n]] + Words(s[n..])
  }

  /** No word runs across the border of two texts. */
  predicate Apart(a: string, b: string) {
    a == "" || b == "" || IsBlank(a[|a| - 1]) || IsBlank(b[0])
  }

  lemma LengthIs(s: string, n: nat)
    requires n <= |s| && (forall i :: 0 <= i < n ==> !IsBlank(s[i])) && (n < |s| ==> IsBlank(s[n]))
    ensures WordLength(s) == n
  {
  }

  lemma {:induction false} WordsSplit(a: string, b: string)
    requires Apart(a, b)
    ensures Words(a + b) == Words(a) + Words(b)
    decreases |a|
  {
    if a == "" {
      assert a + b == b;
    } else if IsBlank(a[0]) {
      assert (a + b)[1..] == a[1..] + b;
      WordsSplit(a[1..], b);
    } else {
      var n := WordLength(a);
      LengthIs(a + b, n);
      assert (a + b)[..n] == a[..n] && (a + b)[n..] == a[n..] + b;
      WordsSplit(a[n..], b);
    }
  }

  lemma {:induction false} BlankWords(s: string)
    requires AllBlank(s)
    ensures Words(s) == []
  {
    if s != "" {
      BlankWords(s[1..]);
    }
  }

  lemma SingleWord(w: string)
    requires IsWord(w)
    ensures Words(w) == [w]
  {
    LengthIs(w, |w|);
    assert w[..|w|] == w && w[|w|..] == "";
  }

  /** A word with blanks around it. */
  lemma OneWord(before: string, w: string, after: string)
    requires AllBlank(before) && IsWord(w) && AllBlank(after)
    ensures Words(before + (w + after)) == [w]
  {
    BlankWords(before);
    BlankWords(after);
    WordsSplit(before, w + after);
    WordsSplit(w, after);
    SingleWord(w);
  }

  // ---- The reader

  datatype Parsed<T> = Failed | Parsed(value: T, rest: seq<string>)

  datatype Query = Query(
    columns: seq<Column>, table: string, base: bool, conditions: seq<Condition>,
    orderBy: Column, descending: bool, limitArg: nat, offsetArg: nat)

  function ColumnOf(name: string): Option<Column> {
    if name == "id" then Some(Id)
    else if name == "action" then Some(Action)
    else if name == "resource_type" then Some(ResourceType)
    else if name == "resource_id" then Some(ResourceId)
    else if name == "user_id" then Some(UserId)
    else if name == "role" then Some(Role)
    else if name == "ip_address::text" then Some(IpAddress)
    else if name == "user_agent" then Some(UserAgent)
    else if name == "metadata" then Some(Metadata)
    else if name == "timestamp" then Some(Timestamp)
    else None
  }

  function ComparisonOf(sign: string): Option<Comparison> {
    if sign == "=" then Some(Equal) else if sign == ">=" then Some(AtLeast) else if sign == "<=" then Some(AtMost) else None
  }

  /** `$n` */
  function PlaceholderOf(w: string): Option<nat> {
    if w == "" || w[0] != '$' || w[1..] == "" || !Decimal.AllDigits(w[1..]) then None else Some(Decimal.Value(w[1..]))
  }

  /** `m=n` for two numbers, as a truth value. */
  function EquationOf(w: string): Option<bool> {
    if |w| != 3 || w[1] != '=' || !Decimal.IsDigit(w[0]) || !Decimal.IsDigit(w[2]) then None
    else Some(Decimal.DigitValue(w[0]) == Decimal.DigitValue(w[2]))
  }

  /** Column names, all but the last with a comma. */
  function ReadList(ws: seq<string>): Parsed<seq<Column>> {
    if ws == [] || ws[0] == "" then Failed
    else
      var w := ws[0];
      var n := |w| - 1;
      if w[n] != ',' then
        (match ColumnOf(w) case None => Failed case Some(c) => Parsed([c], ws[1..]))
      else
        match ReadList(ws[1..])
        case Failed => Failed
        case Parsed(cs, rest) =>
          (match ColumnOf(w[..n]) case None => Failed case Some(c) => Parsed([c] + cs, rest))
  }

  /** `column sign $n` */
  function ReadCondition(name: string, sign: string, arg: string): Option<Condition> {
    match (ColumnOf(name), ComparisonOf(sign), PlaceholderOf(arg))
    case (Some(c), Some(k), Some(n)) => Some(Condition(c, k, n))
    case _ => None
  }

  function ReadConditions(ws: seq<string>): Parsed<seq<Condition>> {
    if ws == [] || ws[0] != "AND" then Parsed([], ws)
    else if |ws| < 4 then Failed
    else match ReadConditions(ws[4..])
      case Failed => Failed
      case Parsed(cs, rest) =>
        (match ReadCondition(ws[1], ws[2], ws[3])
         case None => Failed
         case Some(c) => Parsed([c] + cs, rest))
  }

  function DirectionOf(w: string): Option<bool> {
    if w == "DESC" then Some(true) else if w == "ASC" then Some(false) else None
  }

  /** `ORDER BY column direction LIMIT $m OFFSET $n`, and nothing more. */
  function ReadTail(columns: seq<Column>, table: string, base: bool, conditions: seq<Condition>, ws: seq<string>): Option<Query> {
    if |ws| != 8 || ws[0] != "ORDER" || ws[1] != "BY" || ws[4] != "LIMIT" || ws[6] != "OFFSET" then None
    else match (ColumnOf(ws[2]), DirectionOf(ws[3]), PlaceholderOf(ws[5]), PlaceholderOf(ws[7]))
      case (Some(c), Some(d), Some(m), Some(n)) => Some(Query(columns, table, base, conditions, c, d, m, n))
      case _ => None
  }

  /** `SELECT columns FROM table WHERE equation AND condition ...` and the tail. */
  function ReadStatement(ws: seq<string>): Option<Query> {
    if ws == [] || ws[0] != "SELECT" then None
    else match ReadList(ws[1..])
      case Failed => None
      case Parsed(columns, ws1) =>
        if |ws1| < 4 || ws1[0] != "FROM" || ws1[2] != "WHERE" || EquationOf(ws1[3]) == None then None
        else match ReadConditions(ws1[4..])
          case Failed => None
          case Parsed(conditions, ws2) => ReadTail(columns, ws1[1], EquationOf(ws1[3]).value, conditions, ws2)
  }

  function ReadQuery(text: string): Option<Query> {
    ReadStatement(Words(text))
  }

  // ---- The words of the built text

  lemma Names(c: Column)
    ensures ColumnOf(ColumnName(c)) == Some(c)
    ensures IsWord(ColumnName(c)) && ColumnName(c)[|ColumnName(c)| - 1] != ','
  {
    match c
    case Id => assert IsWord("id");
    case Action => assert IsWord("action");
    case ResourceType => assert IsWord("resource_type");
    case ResourceId => assert IsWord("resource_id");
    case UserId => assert IsWord("user_id");
    case Role => assert IsWord("role");
    case IpAddress => assert IsWord("ip_address::text");
    case UserAgent => assert IsWord("user_agent");
    case Metadata => assert IsWord("metadata");
    case Timestamp => assert IsWord("timestamp");
  }

  lemma Signs(k: Comparison)
    ensures ComparisonOf(Sign(k)) == Some(k) && IsWord(Sign(k))
  {
  }

  lemma Placeholders(n: nat)
    ensures IsWord("$" + Decimal.Print(n)) && PlaceholderOf("$" + Decimal.Print(n)) == Some(n)
  {
    Decimal.PrintRoundTrip(n);
    var w := "$" + Decimal.Print(n);
    assert w[1..] == Decimal.Print(n);
    assert forall i :: 1 <= i < |w| ==> w[i] == w[1..][i - 1];
  }

  function ListWords(cs: seq<Column>): seq<string>
    requires cs != []
  {
    if |cs| == 1 then [ColumnName(cs[0])] else [ColumnName(cs[0]) + ","] + ListWords(cs[1..])
  }

  lemma {:induction false} ListTextWords(cs: seq<Column>)
    requires cs != []
    ensures Words(ListText(cs)) == ListWords(cs)
  {
    var name := ColumnName(cs[0]);
    Names(cs[0]);
    if |cs| == 1 {
      OneWord("", name, "");
      assert "" + (name + "") == name;
    } else {
      ListTextWords(cs[1..]);
      CommaWord(name, ListText(cs[1..]));
    }
  }

  /** One more word before a text. */
  lemma WordBefore(w: string, gap: string, s: string)
    requires IsWord(w) && gap != "" && AllBlank(gap)
    ensures Words(w + (gap + s)) == [w] + Words(s)
  {
    BlankWords(gap);
    WordsSplit(gap, s);
    WordsSplit(w, gap + s);
    SingleWord(w);
  }

  lemma CommaWord(name: string, s: string)
    requires IsWord(name)
    ensures Words(name + (", " + s)) == [name + ","] + Words(s)
  {
    WordBefore(name + ",", " ", s);
    CommaShape(name, ",", " ", s);
    assert "," + " " == ", ";
  }

  lemma CommaShape(name: string, comma: string, gap: string, s: string)
    ensures name + ((comma + gap) + s) == (name + comma) + (gap + s)
  {
  }

  lemma ReadLast(w: string, c: Column, rest: seq<string>)
    requires w != "" && w[|w| - 1] != ',' && ColumnOf(w) == Some(c)
    ensures ReadList([w] + rest) == Parsed([c], rest)
  {
    assert ([w] + rest)[1..] == rest;
  }

  lemma ReadOneMore(name: string, c: Column, ws: seq<string>)
    requires ColumnOf(name) == Some(c) && ReadList(ws).Parsed?
    ensures ReadList([name + ","] + ws) == Parsed([c] + ReadList(ws).value, ReadList(ws).rest)
  {
    assert ([name + ","] + ws)[1..] == ws && (name + ",")[..|name|] == name;
  }

  lemma {:induction false} ListBack(cs: seq<Column>, rest: seq<string>)
    requires cs != []
    ensures ReadList(ListWords(cs) + rest) == Parsed(cs, rest)
  {
    Names(cs[0]);
    if |cs| == 1 {
      assert cs == [cs[0]];
      ReadLast(ColumnName(cs[0]), cs[0], rest);
    } else {
      ListBack(cs[1..], rest);
      ReadOneMore(ColumnName(cs[0]), cs[0], ListWords(cs[1..]) + rest);
      RegroupWords([ColumnName(cs[0]) + ","], ListWords(cs[1..]), rest);
      assert cs == [cs[0]] + cs[1..];
    }
  }

  function ConditionWords(fs: seq<Filter>, k: nat): seq<string> {
    if fs == [] then []
    else ["AND", ColumnName(fs[0].column), Sign(fs[0].comparison), "$" + Decimal.Print(k)] + ConditionWords(fs[1..], k + 1)
  }

  /** One more word after a gap. */
  lemma NextWord(s: string, gap: string, w: string, t: string)
    requires t == (s + gap) + w && gap != "" && AllBlank(gap) && IsWord(w)
    ensures Words(t) == Words(s) + [w]
  {
    BlankWords(gap);
    WordsSplit(s, gap);
    WordsSplit(s + gap, w);
    SingleWord(w);
  }

  lemma AndWord()
    ensures Words(" AND") == ["AND"]
  {
    OneWord(" ", "AND", "");
    assert " " + ("AND" + "") == " AND";
  }

  lemma ConditionTextWords(c: Column, k: Comparison, arg: nat)
    ensures Words(ConditionText(c, k, arg)) == ["AND", ColumnName(c), Sign(k), "$" + Decimal.Print(arg)]
  {
    Names(c);
    Signs(k);
    Placeholders(arg);
    AndWord();
    ThreeMore(" AND", ColumnName(c), Sign(k), Decimal.Print(arg));
    assert " AND" + " " == " AND ";
  }

  lemma ThreeMore(s: string, a: string, b: string, n: string)
    requires IsWord(a) && IsWord(b) && IsWord("$" + n)
    ensures Words((s + " ") + a + " " + b + " $" + n) == Words(s) + [a, b, "$" + n]
  {
    var t := (s + " ") + a;
    var u := (t + " ") + b;
    NextWord(s, " ", a, t);
    NextWord(t, " ", b, u);
    Regroup(u, " ", "$");
    Regroup(u + " ", "$", n);
    assert " " + "$" == " $";
    NextWord(u, " ", "$" + n, u + " $" + n);
  }

  lemma {:induction false} ConditionsTextWords(fs: seq<Filter>, k: nat)
    ensures Words(ConditionsText(fs, k)) == ConditionWords(fs, k)
  {
    if fs != [] {
      var rest := ConditionsText(fs[1..], k + 1);
      ConditionsTextWords(fs[1..], k + 1);
      ConditionTextWords(fs[0].column, fs[0].comparison, k);
      assert rest == "" || rest[0] == ' ';
      WordsSplit(ConditionText(fs[0].column, fs[0].comparison, k), rest);
    }
  }

  /** The conditions of the filters, whose arguments are numbered from k. */
  function Numbered(fs: seq<Filter>, k: nat): seq<Condition> {
    seq(|fs|, i requires 0 <= i < |fs| => Condition(fs[i].column, fs[i].comparison, k + i))
  }

  lemma NumberedFirst(fs: seq<Filter>, k: nat)
    requires fs != []
    ensures Numbered(fs, k) == [Condition(fs[0].column, fs[0].comparison, k)] + Numbered(fs[1..], k + 1)
  {
  }

  lemma ReadFirst(name: string, sign: string, arg: string, ws: seq<string>)
    requires ReadConditions(ws).Parsed? && ReadCondition(name, sign, arg).Some?
    ensures ReadConditions(["AND", name, sign, arg] + ws)
         == Parsed([ReadCondition(name, sign, arg).value] + ReadConditions(ws).value, ReadConditions(ws).rest)
  {
    assert (["AND", name, sign, arg] + ws)[4..] == ws;
  }

  lemma {:induction false} ConditionsBack(fs: seq<Filter>, k: nat, rest: seq<string>)
    requires rest != [] && rest[0] != "AND"
    ensures ReadConditions(ConditionWords(fs, k) + rest) == Parsed(Numbered(fs, k), rest)
  {
    if fs == [] {
      assert ConditionWords(fs, k) + rest == rest && Numbered(fs, k) == [];
    } else {
      ConditionsBack(fs[1..], k + 1, rest);
      ConditionBack(fs[0], k);
      NumberedFirst(fs, k);
      var first := ["AND", ColumnName(fs[0].column), Sign(fs[0].comparison), "$" + Decimal.Print(k)];
      RegroupWords(first, ConditionWords(fs[1..], k + 1), rest);
      ReadFirst(ColumnName(fs[0].column), Sign(fs[0].comparison), "$" + Decimal.Print(k),
                ConditionWords(fs[1..], k + 1) + rest);
    }
  }

  lemma ConditionBack(f: Filter, k: nat)
    ensures ReadCondition(ColumnName(f.column), Sign(f.comparison), "$" + Decimal.Print(k))
         == Some(Condition(f.column, f.comparison, k))
  {
    Names(f.column);
    Signs(f.comparison);
    Placeholders(k);
  }

  lemma RegroupWords(a: seq<string>, b: seq<string>, c: seq<string>)
    ensures (a + b) + c == a + (b + c)
  {
  }

  predicate AllWords(ws: seq<string>) {
    forall i :: 0 <= i < |ws| ==> IsWord(ws[i])
  }

  lemma {:induction false} SpacedWords(ws: seq<string>)
    requires AllWords(ws)
    ensures Words(Spaced(ws)) == ws
  {
    if |ws| == 1 {
      SingleWord(ws[0]);
    } else if ws != [] {
      SpacedWords(ws[1..]);
      WordBefore(ws[0], " ", Spaced(ws[1..]));
      assert ws == [ws[0]] + ws[1..];
    }
  }

  /** A clause on a line of its own. */
  lemma OnLine(clause: string, s: string)
    requires s == "" || IsBlank(s[0])
    ensures Words(LINE + (clause + s)) == Words(clause) + Words(s)
  {
    BlankWords(LINE);
    WordsSplit(LINE, clause + s);
    WordsSplit(clause, s);
  }

  /** `LIMIT $m OFFSET $n` and a closing gap. */
  lemma PageWords(m: string, n: string, end: string)
    requires IsWord("$" + m) && IsWord("$" + n) && AllBlank(end) && end != ""
    ensures Words(LINE + ("LIMIT" + (" $" + (m + (" OFFSET $" + (n + end)))))) == ["LIMIT", "$" + m, "OFFSET", "$" + n]
  {
    var ws := ["LIMIT", "$" + m, "OFFSET", "$" + n];
    SpacedWords(ws);
    BlankWords(end);
    OnLine(Spaced(ws), end);
    PageShape(m, n, end);
  }

  lemma PageShape(m: string, n: string, end: string)
    ensures "LIMIT" + (" $" + (m + (" OFFSET $" + (n + end))))
         == Spaced(["LIMIT", "$" + m, "OFFSET", "$" + n]) + end
  {
    var ws := ["LIMIT", "$" + m, "OFFSET", "$" + n];
    assert ws[1..] == ["$" + m, "OFFSET", "$" + n] && ws[1..][1..] == ["OFFSET", "$" + n] && ws[1..][1..][1..] == ["$" + n];
    assert Spaced(ws[1..][1..]) == "OFFSET" + (" " + ("$" + n));
    assert Spaced(ws[1..]) == ("$" + m) + (" " + ("OFFSET" + (" " + ("$" + n))));
    assert " OFFSET $" == " " + ("OFFSET" + (" " + "$")) && " $" == " " + "$";
  }

  lemma BaseWords()
    ensures Words("WHERE 1=1") == ["WHERE", "1=1"]
  {
    OneWord("", "WHERE", "");
    assert "" + ("WHERE" + "") == "WHERE";
    NextWord("WHERE", " ", "1=1", "WHERE 1=1");
  }

  lemma WhereWords(fs: seq<Filter>)
    ensures Words(WhereText(fs)) == ["WHERE", "1=1"] + ConditionWords(fs, 1)
  {
    BaseWords();
    ConditionsTextWords(fs, 1);
    assert ConditionsText(fs, 1) == "" || ConditionsText(fs, 1)[0] == ' ';
    WordsSplit("WHERE 1=1", ConditionsText(fs, 1));
  }

  function StatementWords(list: seq<string>, from: seq<string>, where: seq<string>, order: seq<string>, page: seq<string>): seq<string> {
    ["SELECT"] + (list + (from + (where + (order + page))))
  }

  function PagePlaceholders(m: nat, n: nat): seq<string> {
    ["LIMIT", "$" + Decimal.Print(m), "OFFSET", "$" + Decimal.Print(n)]
  }

  lemma SelectWords(cs: seq<Column>, key: string, s: string)
    requires cs != [] && (s == "" || IsBlank(s[0])) && IsWord(key)
    ensures Words(LINE + (key + (" " + (ListText(cs) + s)))) == [key] + (ListWords(cs) + Words(s))
  {
    ListTextWords(cs);
    WordsSplit(ListText(cs), s);
    WordBefore(key, " ", ListText(cs) + s);
    BlankWords(LINE);
    WordsSplit(LINE, key + (" " + (ListText(cs) + s)));
  }

  lemma ClausesWords(cs: seq<Column>, from: string, where: string, order: string, m: nat, n: nat)
    requires cs != []
    ensures Words(Clauses(cs, from, where, order, Decimal.Print(m), Decimal.Print(n)))
         == StatementWords(ListWords(cs), Words(from), Words(where), Words(order), PagePlaceholders(m, n))
  {
    var p, q := Decimal.Print(m), Decimal.Print(n);
    Placeholders(m);
    Placeholders(n);
    var page := LINE + ("LIMIT" + (" $" + (p + (" OFFSET $" + (q + "\n\t\t")))));
    PageWords(p, q, "\n\t\t");
    OnLine(order, page);
    OnLine(where, LINE + (order + page));
    OnLine(from, LINE + (where + (LINE + (order + page))));
    SelectWords(cs, "SELECT", LINE + (from + (LINE + (where + (LINE + (order + page))))));
  }

  lemma FromWords()
    ensures Words(Spaced(FROM_CLAUSE)) == FROM_CLAUSE
  {
    SpacedWords(FROM_CLAUSE);
  }

  lemma OrderWords()
    ensures Words(Spaced(ORDER_CLAUSE)) == ORDER_CLAUSE
  {
    SpacedWords(ORDER_CLAUSE);
  }

  /** What was built, as read back from its text. */
  function Built(fs: seq<Filter>): Query {
    Query(COLUMNS, "audit_logs", true, Numbered(fs, 1), Timestamp, true, |fs| + 1, |fs| + 2)
  }

  lemma FromAndWhere(from: seq<string>, base: seq<string>, conditions: seq<string>, tail: seq<string>)
    requires |from| == 2 && |base| == 2
    ensures var ws := from + ((base + conditions) + tail);
      |ws| >= 4 && ws[0] == from[0] && ws[1] == from[1] && ws[2] == base[0] && ws[3] == base[1]
      && ws[4..] == conditions + tail
  {
  }

  lemma ReadParts(ws: seq<string>, cs: seq<Column>, ws1: seq<string>, ks: seq<Condition>, tail: seq<string>)
    requires ws != [] && ws[0] == "SELECT" && ReadList(ws[1..]) == Parsed(cs, ws1)
    requires |ws1| >= 4 && ws1[0] == "FROM" && ws1[2] == "WHERE" && EquationOf(ws1[3]).Some?
    requires ReadConditions(ws1[4..]) == Parsed(ks, tail)
    ensures ReadStatement(ws) == ReadTail(cs, ws1[1], EquationOf(ws1[3]).value, ks, tail)
  {
  }

  /** A statement over any column list, table, base equation and tail is read part by part. */
  lemma ReadClauses(cs: seq<Column>, from: seq<string>, base: seq<string>, fs: seq<Filter>, order: seq<string>, page: seq<string>)
    requires cs != [] && |from| == 2 && from[0] == "FROM" && |base| == 2 && base[0] == "WHERE"
    requires EquationOf(base[1]).Some? && order != [] && order[0] != "AND"
    ensures ReadStatement(StatementWords(ListWords(cs), from, base + ConditionWords(fs, 1), order, page))
         == ReadTail(cs, from[1], EquationOf(base[1]).value, Numbered(fs, 1), order + page)
  {
    var tail := order + page;
    var ws1 := from + ((base + ConditionWords(fs, 1)) + tail);
    var ws := ["SELECT"] + (ListWords(cs) + ws1);
    assert ws[1..] == ListWords(cs) + ws1;
    ListBack(cs, ws1);
    FromAndWhere(from, base, ConditionWords(fs, 1), tail);
    ConditionsBack(fs, 1, tail);
    ReadParts(ws, cs, ws1, Numbered(fs, 1), tail);
  }

  lemma TailBack(cs: seq<Column>, table: string, base: bool, ks: seq<Condition>, m: nat, n: nat)
    ensures ReadTail(cs, table, base, ks, ORDER_CLAUSE + PagePlaceholders(m, n))
         == Some(Query(cs, table, base, ks, Timestamp, true, m, n))
  {
    Placeholders(m);
    Placeholders(n);
  }

  function BuiltWords(fs: seq<Filter>): seq<string> {
    StatementWords(ListWords(COLUMNS), FROM_CLAUSE, ["WHERE", "1=1"] + ConditionWords(fs, 1), ORDER_CLAUSE,
                   PagePlaceholders(|fs| + 1, |fs| + 2))
  }

  lemma TextWords(fs: seq<Filter>)
    ensures Words(QueryText(fs)) == BuiltWords(fs)
  {
    ClausesWords(COLUMNS, Spaced(FROM_CLAUSE), WhereText(fs), Spaced(ORDER_CLAUSE), |fs| + 1, |fs| + 2);
    FromWords();
    OrderWords();
    WhereWords(fs);
  }

  lemma WordsBack(fs: seq<Filter>)
    ensures ReadStatement(BuiltWords(fs)) == Some(Built(fs))
  {
    ReadClauses(COLUMNS, FROM_CLAUSE, ["WHERE", "1=1"], fs, ORDER_CLAUSE, PagePlaceholders(|fs| + 1, |fs| + 2));
    TailBack(COLUMNS, "audit_logs", true, Numbered(fs, 1), |fs| + 1, |fs| + 2);
  }

  /** Reading the text recovers its columns, table, conditions, ordering and page. */
  lemma ReadBack(fs: seq<Filter>)
    ensures ReadQuery(QueryText(fs)) == Some(Built(fs))
  {
    TextWords(fs);
    WordsBack(fs);
  }

  predicate InOrder(query: Query, n: nat) {
    && |query.conditions| + 2 == n
    && (forall i :: 0 <= i < |query.conditions| ==> query.conditions[i].arg == i + 1)
    && query.limitArg == n - 1 && query.offsetArg == n
  }

  lemma BuiltInOrder(fs: seq<Filter>)
    ensures InOrder(Built(fs), |fs| + 2)
  {
  }

  /** The placeholders of the text are $1 .. $n, in order and each once, one for each argument. */
  lemma PlaceholdersInOrder(q: QueryInput)
    ensures var query := ReadQuery(QueryText(Filters(q)));
      query.Some? && InOrder(query.value, |Arguments(q)|)
  {
    ReadBack(Filters(q));
    BuiltInOrder(Filters(q));
  }

  // ---- Answers of a statement

  function Field(row: Row, c: Column): Value {
    match c
    case Id => Number(row.id)
    case Action => Text(row.action)
    case ResourceType => Text(row.resourceType)
    case ResourceId => (match row.resourceId case None => Null case Some(n) => Number(n))
    case UserId => Number(row.userId)
    case Role => Text(row.role)
    case IpAddress => (match row.ipAddress case None => Null case Some(s) => Text(s))
    case UserAgent => (match row.userAgent case None => Null case Some(s) => Text(s))
    case Metadata => Text(row.metadata)
    case Timestamp => Time(row.timestamp)
  }

  /** Text order by character code. */
  predicate TextAtMost(a: string, b: string) {
    a == "" || (b != "" && (a[0] < b[0] || (a[0] == b[0] && TextAtMost(a[1..], b[1..]))))
  }

  /** The order of two values of one type; NULL comes last. */
  predicate Precedes(a: Value, b: Value) {
    match (a, b)
    case (_, Null) => true
    case (Number(m), Number(n)) => m <= n
    case (Time(s), Time(t)) => s <= t
    case (Text(s), Text(t)) => TextAtMost(s, t)
    case _ => false
  }

  /** A comparison with NULL does not hold. */
  predicate Compare(a: Value, c: Comparison, b: Value) {
    a != Null && b != Null &&
    match c
    case Equal => a == b
    case AtLeast => Precedes(b, a)
    case AtMost => Precedes(a, b)
  }

  predicate SatisfiesAt(row: Row, cs: seq<Condition>, args: seq<Value>, i: nat)
    requires i < |cs|
  {
    1 <= cs[i].arg <= |args| && Compare(Field(row, cs[i].column), cs[i].comparison, args[cs[i].arg - 1])
  }

  /** A row satisfies the conditions once the arguments are substituted. */
  predicate Satisfies(row: Row, cs: seq<Condition>, args: seq<Value>) {
    forall i :: 0 <= i < |cs| ==> SatisfiesAt(row, cs, args, i)
  }

  function Select(table: seq<Row>, keep: Row -> bool): seq<Row> {
    if table == [] then []
    else (if keep(table[0]) then [table[0]] else []) + Select(table[1..], keep)
  }

  /** A selection has exactly the kept rows, each as often as the table. */
  lemma {:induction false} SelectCounts(table: seq<Row>, keep: Row -> bool, row: Row)
    ensures multiset(Select(table, keep))[row] == if keep(row) then multiset(table)[row] else 0
  {
    if table != [] {
      SelectCounts(table[1..], keep, row);
      assert table == [table[0]] + table[1..];
    }
  }

  predicate Sorted(rows: seq<Row>, c: Column, descending: bool) {
    forall i, j :: 0 <= i < j < |rows| ==>
      if descending then Precedes(Field(rows[j], c), Field(rows[i], c)) else Precedes(Field(rows[i], c), Field(rows[j], c))
  }

  function Page(rows: seq<Row>, limit: nat, offset: nat): seq<Row> {
    var from := if offset < |rows| then offset else |rows|;
    var to := if from + limit < |rows| then from + limit else |rows|;
    rows[from..to]
  }

  /** A page starts after `offset` rows and has `limit` rows, or as many as there are. */
  lemma PageRows(rows: seq<Row>, limit: nat, offset: nat)
    ensures var page := Page(rows, limit, offset);
      && |page| <= limit && offset + |page| <= (if offset > |rows| then offset else |rows|)
      && (forall i :: 0 <= i < |page| ==> offset + i < |rows| && page[i] == rows[offset + i])
      && (|page| < limit ==> offset + |page| >= |rows|)
  {
  }

  /** What the server sends for a row. */
  function Project(row: Row, columns: seq<Column>): seq<Value> {
    seq(|columns|, i requires 0 <= i < |columns| => Field(row, columns[i]))
  }

  /** rows.Scan: by position, into the fields of AuditRow; None for a tuple of another shape. */
  function Scan(t: seq<Value>): Option<Row> {
    if |t| != 10 then None
    else match (t[0], t[1], t[2], t[4], t[5])
      case (Number(id), Text(action), Text(resourceType), Number(userId), Text(role)) =>
        (match (NumberOrNull(t[3]), TextOrNull(t[6]), TextOrNull(t[7]), t[8], t[9])
         case (Some(resourceId), Some(ip), Some(agent), Text(metadata), Time(at)) =>
           Some(Row(id, action, resourceType, resourceId, userId, role, ip, agent, metadata, at))
         case _ => None)
      case _ => None
  }

  function NumberOrNull(v: Value): Option<Option<int>> {
    match v case Null => Some(None) case Number(n) => Some(Some(n)) case _ => None
  }

  function TextOrNull(v: Value): Option<Option<string>> {
    match v case Null => Some(None) case Text(s) => Some(Some(s)) case _ => None
  }

  /** The selected columns are those that Scan expects, in its order. */
  lemma ScanBack(row: Row)
    ensures Scan(Project(row, COLUMNS)) == Some(row)
  {
  }

  predicate Scanned(out: seq<Row>, tuples: seq<seq<Value>>) {
    |out| == |tuples| && forall i :: 0 <= i < |out| ==> Scan(tuples[i]) == Some(out[i])
  }

  /** The loop over the result: it ends at the first tuple that cannot be scanned. */
  method ScanRows(tuples: seq<seq<Value>>) returns (out: seq<Row>, ok: bool)
    ensures ok <==> forall i :: 0 <= i < |tuples| ==> Scan(tuples[i]).Some?
    ensures ok ==> Scanned(out, tuples)
  {
    out := [];
    while |out| < |tuples|
      invariant |out| <= |tuples|
      invariant Scanned(out, tuples[..|out|])
      decreases |tuples| - |out|
    {
      var r := Scan(tuples[|out|]);
      if r.None? {
        return out, false;
      }
      out := out + [r.value];
    }
    assert tuples[..|out|] == tuples;
    ok := true;
  }

  /** The tables of the database that hold audit rows. */
  type Database = map<string, seq<Row>>

  /** A possible answer of a statement: the kept rows of its table in some order that its ORDER BY
      allows, one page of them, projected to its columns. */
  ghost predicate Answers(query: Query, db: Database, args: seq<Value>, tuples: seq<seq<Value>>)
    requires query.table in db
  {
    && 1 <= query.limitArg <= |args| && 1 <= query.offsetArg <= |args|
    && var limit, offset := args[query.limitArg - 1], args[query.offsetArg - 1];
    && limit.Number? && limit.n >= 0 && offset.Number? && offset.n >= 0
    && exists rows: seq<Row> ::
      && multiset(rows) == multiset(Select(db[query.table], row => query.base && Satisfies(row, query.conditions, args)))
      && Sorted(rows, query.orderBy, query.descending)
      && tuples == Projected(Page(rows, limit.n, offset.n), query.columns)
  }

  function Projected(rows: seq<Row>, columns: seq<Column>): seq<seq<Value>> {
    seq(|rows|, i requires 0 <= i < |rows| => Project(rows[i], columns))
  }

  /** What the service returns for a text and its arguments. */
  ghost predicate Returns(text: string, db: Database, args: seq<Value>, result: seq<Row>) {
    match ReadQuery(text)
    case None => false
    case Some(query) => query.table in db && exists tuples :: Answers(query, db, args, tuples) && Scanned(result, tuples)
  }

  // ---- What was asked for

  predicate Wanted(row: Row, q: QueryInput) {
    && (q.action != "" ==> row.action == q.action)
    && (q.resource != "" ==> row.resourceType == q.resource)
    && (q.userId.Some? ==> row.userId == q.userId.value)
    && (q.from.Some? ==> row.timestamp >= q.from.value)
    && (q.to.Some? ==> row.timestamp <= q.to.value)
  }

  predicate NewestFirst(rows: seq<Row>) {
    forall i, j :: 0 <= i < j < |rows| ==> rows[i].timestamp >= rows[j].timestamp
  }

  /** One page of the wanted rows of the log, newest first; equal timestamps may come in any order. */
  ghost predicate Asked(q: QueryInput, log: seq<Row>, result: seq<Row>) {
    q.limit >= 0 && q.offset >= 0 && exists rows: seq<Row> ::
      multiset(rows) == multiset(Select(log, row => Wanted(row, q))) && NewestFirst(rows)
      && result == Page(rows, q.limit, q.offset)
  }

  // ---- Agreement

  predicate Passes(row: Row, f: Filter) {
    Compare(Field(row, f.column), f.comparison, f.value)
  }

  predicate PassesAll(row: Row, fs: seq<Filter>) {
    forall i :: 0 <= i < |fs| ==> Passes(row, fs[i])
  }

  /** Substituting the arguments gives each condition its filter's value back. */
  lemma Substituted(row: Row, fs: seq<Filter>, args: seq<Value>)
    requires Values(fs) <= args
    ensures Satisfies(row, Numbered(fs, 1), args) <==> PassesAll(row, fs)
  {
    forall i | 0 <= i < |fs|
      ensures SatisfiesAt(row, Numbered(fs, 1), args, i) <==> Passes(row, fs[i])
    {
      SubstitutedAt(row, fs, args, i);
    }
  }

  lemma SubstitutedAt(row: Row, fs: seq<Filter>, args: seq<Value>, i: nat)
    requires Values(fs) <= args && i < |fs|
    ensures SatisfiesAt(row, Numbered(fs, 1), args, i) <==> Passes(row, fs[i])
  {
    assert args[i] == Values(fs)[i];
  }

  lemma PassesAppend(row: Row, fs: seq<Filter>, f: Filter)
    ensures PassesAll(row, fs + [f]) <==> PassesAll(row, fs) && Passes(row, f)
  {
    assert forall i :: 0 <= i < |fs| ==> (fs + [f])[i] == fs[i];
    assert (fs + [f])[|fs|] == f;
  }

  /** All present filters together are what the caller asked for. */
  lemma FiltersWanted(row: Row, q: QueryInput)
    ensures PassesAll(row, Filters(q)) <==> Wanted(row, q)
  {
    var f0: seq<Filter> := [];
    PassesAppend(row, f0, Filter(Action, Equal, Text(q.action)));
    var f1 := if q.action != "" then f0 + [Filter(Action, Equal, Text(q.action))] else f0;
    PassesAppend(row, f1, Filter(ResourceType, Equal, Text(q.resource)));
    var f2 := if q.resource != "" then f1 + [Filter(ResourceType, Equal, Text(q.resource))] else f1;
    var f3 := f2;
    if q.userId.Some? {
      PassesAppend(row, f2, Filter(UserId, Equal, Number(q.userId.value)));
      f3 := f2 + [Filter(UserId, Equal, Number(q.userId.value))];
    }
    var f4 := f3;
    if q.from.Some? {
      PassesAppend(row, f3, Filter(Timestamp, AtLeast, Time(q.from.value)));
      f4 := f3 + [Filter(Timestamp, AtLeast, Time(q.from.value))];
    }
    if q.to.Some? {
      PassesAppend(row, f4, Filter(Timestamp, AtMost, Time(q.to.value)));
    }
  }

  lemma {:induction false} SameSelection(table: seq<Row>, f: Row -> bool, g: Row -> bool)
    requires forall row :: f(row) <==> g(row)
    ensures Select(table, f) == Select(table, g)
  {
    if table != [] {
      SameSelection(table[1..], f, g);
    }
  }

  /** The rows that the built statement keeps. */
  lemma Kept(q: QueryInput, log: seq<Row>)
    ensures Select(log, row => Built(Filters(q)).base && Satisfies(row, Numbered(Filters(q), 1), Arguments(q)))
         == Select(log, row => Wanted(row, q))
  {
    forall row: Row
      ensures Satisfies(row, Numbered(Filters(q), 1), Arguments(q)) <==> Wanted(row, q)
    {
      Substituted(row, Filters(q), Arguments(q));
      FiltersWanted(row, q);
    }
    SameSelection(log, row => Built(Filters(q)).base && Satisfies(row, Numbered(Filters(q), 1), Arguments(q)),
                  row => Wanted(row, q));
  }

  lemma SortedIsNewestFirst(rows: seq<Row>)
    ensures Sorted(rows, Timestamp, true) <==> NewestFirst(rows)
  {
  }

  /** Scanning what was projected gives the rows themselves. */
  lemma ScannedIsPage(page: seq<Row>, result: seq<Row>)
    ensures Scanned(result, Projected(page, COLUMNS)) <==> result == page
  {
    forall i | 0 <= i < |page|
      ensures Scan(Projected(page, COLUMNS)[i]) == Some(page[i])
    {
      ScanBack(page[i]);
    }
  }

  lemma ReturnsBuilt(q: QueryInput, db: Database, result: seq<Row>)
    requires "audit_logs" in db
    ensures Returns(QueryText(Filters(q)), db, Arguments(q), result) <==>
      exists tuples :: Answers(Built(Filters(q)), db, Arguments(q), tuples) && Scanned(result, tuples)
  {
    ReadBack(Filters(q));
  }

  lemma AnswerAsked(q: QueryInput, db: Database, tuples: seq<seq<Value>>, result: seq<Row>)
    requires "audit_logs" in db && Answers(Built(Filters(q)), db, Arguments(q), tuples) && Scanned(result, tuples)
    ensures Asked(q, db["audit_logs"], result)
  {
    var query, args := Built(Filters(q)), Arguments(q);
    Kept(q, db["audit_logs"]);
    var rows: seq<Row> :|
      && multiset(rows) == multiset(Select(db["audit_logs"], row => query.base && Satisfies(row, query.conditions, args)))
      && Sorted(rows, Timestamp, true) && tuples == Projected(Page(rows, q.limit, q.offset), COLUMNS);
    SortedIsNewestFirst(rows);
    ScannedIsPage(Page(rows, q.limit, q.offset), result);
  }

  lemma AskedAnswer(q: QueryInput, db: Database, result: seq<Row>)
    requires "audit_logs" in db && Asked(q, db["audit_logs"], result)
    ensures exists tuples :: Answers(Built(Filters(q)), db, Arguments(q), tuples) && Scanned(result, tuples)
  {
    Kept(q, db["audit_logs"]);
    var rows: seq<Row> :| multiset(rows) == multiset(Select(db["audit_logs"], row => Wanted(row, q)))
      && NewestFirst(rows) && result == Page(rows, q.limit, q.offset);
    SortedIsNewestFirst(rows);
    ScannedIsPage(result, result);
    assert Answers(Built(Filters(q)), db, Arguments(q), Projected(result, COLUMNS));
  }

  /** For every combination of filters and values the text, as it reads, makes the service return
      exactly what was asked for. */
  lemma QueryMeans(q: QueryInput, db: Database, result: seq<Row>)
    requires "audit_logs" in db
    ensures Returns(QueryText(Filters(q)), db, Arguments(q), result) <==> Asked(q, db["audit_logs"], result)
  {
    ReturnsBuilt(q, db, result);
    if tuples :| Answers(Built(Filters(q)), db, Arguments(q), tuples) && Scanned(result, tuples) {
      AnswerAsked(q, db, tuples, result);
    }
    if Asked(q, db["audit_logs"], result) {
      AskedAnswer(q, db, result);
    }
  }
}
