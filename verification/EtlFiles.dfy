/** One file: the row-by-row transaction succeeds exactly when the first row of each
    new key is acceptable, and then those rows have won; a repeated file changes nothing. */
module EtlFiles {
  import opened Wrappers
  import opened EtlTables

  /** A row is first among `rows[..n]` exactly when it is first among `rows` and before `n`. */
  lemma FirstRowPrefix(cfg: Config, t: nat, table: Table, rows: seq<Row>, n: nat, i: nat, rec: Record)
    requires t < TABLES && n <= |rows|
    ensures FirstRow(cfg, t, table, rows[..n], i, rec) <==> i < n && FirstRow(cfg, t, table, rows, i, rec)
  {
    if i < n {
      assert rows[..n][i] == rows[i];
      assert forall j :: 0 <= j < i ==> rows[..n][j] == rows[j];
    }
  }

  /** The keys of a table after a file. */
  lemma KeysAfter(cfg: Config, t: nat, table: Table, table': Table, rows: seq<Row>, k: Key)
    requires t < TABLES && FirstWins(cfg, t, table, table', rows)
    ensures k in table' <==> k in table || exists i :: 0 <= i < |rows| && HasKey(cfg, t, rows[i], k)
  {
    if k !in table && exists i :: 0 <= i < |rows| && HasKey(cfg, t, rows[i], k) {
      var i := FirstOf(cfg, t, rows, k);
      assert FirstRow(cfg, t, table, rows, i, Converted(cfg, t, rows[i]).value);
    }
  }

  lemma {:induction false} FirstOf(cfg: Config, t: nat, rows: seq<Row>, k: Key) returns (i: nat)
    requires t < TABLES && exists i :: 0 <= i < |rows| && HasKey(cfg, t, rows[i], k)
    ensures i < |rows| && HasKey(cfg, t, rows[i], k)
    ensures forall j :: 0 <= j < i ==> !HasKey(cfg, t, rows[j], k)
  {
    var n := |rows| - 1;
    if exists j :: 0 <= j < n && HasKey(cfg, t, rows[j], k) {
      var j :| 0 <= j < n && HasKey(cfg, t, rows[j], k);
      assert rows[..n][j] == rows[j];
      i := FirstOf(cfg, t, rows[..n], k);
      assert forall m :: 0 <= m < n ==> rows[..n][m] == rows[m];
    } else {
      i := n;
    }
  }

  predicate SameElsewhere(t: nat, a: Tables, b: Tables) {
    forall u :: 0 <= u < TABLES && u != t ==> a[u] == b[u]
  }

  /** No table refers to itself. */
  lemma RefsElsewhere(t: nat, a: Tables, b: Tables, rec: Record)
    requires t < TABLES && SameElsewhere(t, a, b)
    ensures RefsFound(t, a, rec) <==> RefsFound(t, b, rec)
  {
    assert forall r :: r in SchemaOf(t).refs ==> r.table != t;
  }

  /** What the rows of a file have put into the unique column. */
  lemma ClashesAfter(cfg: Config, t: nat, table: Table, table': Table, rows: seq<Row>, rec: Record)
    requires t < TABLES && FirstWins(cfg, t, table, table', rows)
    ensures Clashes(t, table', rec) <==>
      Clashes(t, table, rec) || exists i, a :: FirstRow(cfg, t, table, rows, i, a) && SameUnique(t, a, rec)
  {
    if k :| k in table' && SameUnique(t, table'[k], rec) {
      if k !in table {
        var i: nat :| FirstRow(cfg, t, table, rows, i, table'[k]);
      }
    }
    if k :| k in table && SameUnique(t, table[k], rec) {
      assert k in table' && SameUnique(t, table'[k], rec);
    }
    if i, a :| FirstRow(cfg, t, table, rows, i, a) && SameUnique(t, a, rec) {
      assert KeyOf(t, a) in table' && SameUnique(t, table'[KeyOf(t, a)], rec);
    }
  }

  /** What the last row adds to the condition on a file. */
  ghost predicate LastAcceptable(cfg: Config, t: nat, tables: Tables, rows: seq<Row>)
    requires t < TABLES && rows != []
  {
    var n := |rows| - 1;
    var rec := Converted(cfg, t, rows[n]);
    && rec.Some?
    && (FirstRow(cfg, t, tables[t], rows, n, rec.value) ==>
          && RefsFound(t, tables, rec.value)
          && !Clashes(t, tables[t], rec.value)
          && forall i, a :: FirstRow(cfg, t, tables[t], rows[..n], i, a) ==> !SameUnique(t, a, rec.value))
  }

  lemma FirstRowsBefore(cfg: Config, t: nat, table: Table, rows: seq<Row>, n: nat)
    requires t < TABLES && n <= |rows|
    ensures forall i: nat, rec ::
      FirstRow(cfg, t, table, rows[..n], i, rec) <==> i < n && FirstRow(cfg, t, table, rows, i, rec)
  {
    forall i: nat, rec: Record
      ensures FirstRow(cfg, t, table, rows[..n], i, rec) <==> i < n && FirstRow(cfg, t, table, rows, i, rec)
    {
      FirstRowPrefix(cfg, t, table, rows, n, i, rec);
    }
  }

  lemma AllConvertStep(cfg: Config, t: nat, rows: seq<Row>)
    requires t < TABLES && rows != []
    ensures AllConvert(cfg, t, rows) <==>
      AllConvert(cfg, t, rows[..|rows| - 1]) && Converted(cfg, t, rows[|rows| - 1]).Some?
  {
    var n := |rows| - 1;
    assert forall i :: 0 <= i < n ==> rows[..n][i] == rows[i];
  }

  lemma AcceptableDown(cfg: Config, t: nat, tables: Tables, rows: seq<Row>)
    requires t < TABLES && rows != [] && Acceptable(cfg, t, tables, rows)
    ensures Acceptable(cfg, t, tables, rows[..|rows| - 1]) && LastAcceptable(cfg, t, tables, rows)
  {
    FirstRowsBefore(cfg, t, tables[t], rows, |rows| - 1);
    AllConvertStep(cfg, t, rows);
  }

  lemma AllFitUp(cfg: Config, t: nat, tables: Tables, rows: seq<Row>)
    requires t < TABLES && rows != []
    requires AllFit(cfg, t, tables, rows[..|rows| - 1]) && LastAcceptable(cfg, t, tables, rows)
    ensures AllFit(cfg, t, tables, rows)
  {
    forall i: nat, rec | FirstRow(cfg, t, tables[t], rows, i, rec)
      ensures RefsFound(t, tables, rec) && !Clashes(t, tables[t], rec)
    {
      FirstRowPrefix(cfg, t, tables[t], rows, |rows| - 1, i, rec);
    }
  }

  lemma NoTwin(cfg: Config, t: nat, tables: Tables, rows: seq<Row>, i: nat, a: Record, j: nat, b: Record)
    requires t < TABLES && rows != []
    requires NoTwins(cfg, t, tables[t], rows[..|rows| - 1]) && LastAcceptable(cfg, t, tables, rows)
    requires FirstRow(cfg, t, tables[t], rows, i, a) && FirstRow(cfg, t, tables[t], rows, j, b) && i < j
    ensures !SameUnique(t, a, b)
  {
    var n := |rows| - 1;
    FirstRowPrefix(cfg, t, tables[t], rows, n, i, a);
    if j < n {
      FirstRowPrefix(cfg, t, tables[t], rows, n, j, b);
    } else {
      assert FirstRow(cfg, t, tables[t], rows, n, Converted(cfg, t, rows[n]).value);
    }
  }

  lemma NoTwinsUp(cfg: Config, t: nat, tables: Tables, rows: seq<Row>)
    requires t < TABLES && rows != []
    requires NoTwins(cfg, t, tables[t], rows[..|rows| - 1]) && LastAcceptable(cfg, t, tables, rows)
    ensures NoTwins(cfg, t, tables[t], rows)
  {
    forall i: nat, a, j: nat, b |
      FirstRow(cfg, t, tables[t], rows, i, a) && FirstRow(cfg, t, tables[t], rows, j, b) && i < j
    {
      NoTwin(cfg, t, tables, rows, i, a, j, b);
    }
  }

  lemma AcceptableUp(cfg: Config, t: nat, tables: Tables, rows: seq<Row>)
    requires t < TABLES && rows != []
    requires Acceptable(cfg, t, tables, rows[..|rows| - 1]) && LastAcceptable(cfg, t, tables, rows)
    ensures Acceptable(cfg, t, tables, rows)
  {
    AllConvertStep(cfg, t, rows);
    AllFitUp(cfg, t, tables, rows);
    NoTwinsUp(cfg, t, tables, rows);
  }

  /** The last row is first for its key exactly when the earlier rows left the key free. */
  lemma LastIsFirst(cfg: Config, t: nat, table: Table, table': Table, rows: seq<Row>, rec: Record)
    requires t < TABLES && rows != []
    requires FirstWins(cfg, t, table, table', rows[..|rows| - 1])
    ensures FirstRow(cfg, t, table, rows, |rows| - 1, rec) <==>
      Converted(cfg, t, rows[|rows| - 1]) == Some(rec) && KeyOf(t, rec) !in table'
  {
    var n := |rows| - 1;
    KeysAfter(cfg, t, table, table', rows[..n], KeyOf(t, rec));
    assert forall j :: 0 <= j < n ==> rows[..n][j] == rows[j];
  }

  /** FirstWins after one more row. */
  lemma FirstWinsStep(cfg: Config, t: nat, table: Table, before: Table, after: Table, rows: seq<Row>, rec: Record)
    requires t < TABLES && rows != []
    requires FirstWins(cfg, t, table, before, rows[..|rows| - 1])
    requires Converted(cfg, t, rows[|rows| - 1]) == Some(rec)
    requires after == if KeyOf(t, rec) in before then before else before[KeyOf(t, rec) := rec]
    ensures FirstWins(cfg, t, table, after, rows)
  {
    LastIsFirst(cfg, t, table, before, rows, rec);
    forall k | k in after && k !in table {
      NewKeyStep(cfg, t, table, before, after, rows, rec, k);
    }
    forall i: nat, r | FirstRow(cfg, t, table, rows, i, r) {
      FirstRowStored(cfg, t, table, before, after, rows, rec, i, r);
    }
  }

  lemma FirstRowStored(cfg: Config, t: nat, table: Table, before: Table, after: Table, rows: seq<Row>, rec: Record,
                       i: nat, r: Record)
    requires t < TABLES && rows != [] && FirstRow(cfg, t, table, rows, i, r)
    requires FirstWins(cfg, t, table, before, rows[..|rows| - 1])
    requires Converted(cfg, t, rows[|rows| - 1]) == Some(rec)
    requires after == if KeyOf(t, rec) in before then before else before[KeyOf(t, rec) := rec]
    requires FirstRow(cfg, t, table, rows, |rows| - 1, rec) <==> KeyOf(t, rec) !in before
    ensures KeyOf(t, r) in after && after[KeyOf(t, r)] == r
  {
    FirstRowPrefix(cfg, t, table, rows, |rows| - 1, i, r);
  }

  lemma NewKeyStep(
      cfg: Config, t: nat, table: Table, before: Table, after: Table, rows: seq<Row>, rec: Record, k: Key)
    requires t < TABLES && rows != []
    requires FirstWins(cfg, t, table, before, rows[..|rows| - 1])
    requires after == if KeyOf(t, rec) in before then before else before[KeyOf(t, rec) := rec]
    requires KeyOf(t, rec) !in before ==> FirstRow(cfg, t, table, rows, |rows| - 1, rec)
    requires k in after && k !in table
    ensures exists i: nat :: FirstRow(cfg, t, table, rows, i, after[k]) && KeyOf(t, after[k]) == k
  {
    var n := |rows| - 1;
    if k in before {
      var i: nat :| FirstRow(cfg, t, table, rows[..n], i, before[k]) && KeyOf(t, before[k]) == k;
      FirstRowPrefix(cfg, t, table, rows, n, i, before[k]);
      assert FirstRow(cfg, t, table, rows, i, after[k]);
    } else {
      assert FirstRow(cfg, t, table, rows, n, after[k]);
    }
  }

  /** The transaction of a file commits exactly when every row converts and the first rows of the new
      keys fit the tables and each other; it then keeps every old row, stores the first row of each
      new key and touches no other table. */
  lemma {:induction false} FileExact(cfg: Config, t: nat, tables: Tables, rows: seq<Row>)
    requires t < TABLES
    ensures ImportRows(cfg, t, tables, rows).Some? <==> Acceptable(cfg, t, tables, rows)
    ensures var after := ImportRows(cfg, t, tables, rows);
      after.Some? ==> FirstWins(cfg, t, tables[t], after.value[t], rows) && SameElsewhere(t, tables, after.value)
  {
    if rows != [] {
      var n := |rows| - 1;
      FileExact(cfg, t, tables, rows[..n]);
      if Acceptable(cfg, t, tables, rows) {
        AcceptableDown(cfg, t, tables, rows);
      }
      if Acceptable(cfg, t, tables, rows[..n]) && LastAcceptable(cfg, t, tables, rows) {
        AcceptableUp(cfg, t, tables, rows);
      }
      var before := ImportRows(cfg, t, tables, rows[..n]);
      var rec := Converted(cfg, t, rows[n]);
      if before.Some? && rec.Some? {
        LastIsFirst(cfg, t, tables[t], before.value[t], rows, rec.value);
        RefsElsewhere(t, tables, before.value, rec.value);
        ClashesAfter(cfg, t, tables[t], before.value[t], rows[..n], rec.value);
        var after := ImportRows(cfg, t, tables, rows);
        if after.Some? {
          FirstWinsStep(cfg, t, tables[t], before.value[t], after.value[t], rows, rec.value);
        }
      }
    }
  }

  // ---- Importing a file again

  /** Every row converts and its key is in the table. */
  predicate Covered(cfg: Config, t: nat, table: Table, rows: seq<Row>)
    requires t < TABLES
  {
    forall i :: 0 <= i < |rows| ==>
      Converted(cfg, t, rows[i]).Some? && KeyOf(t, Converted(cfg, t, rows[i]).value) in table
  }

  lemma CoveredAfter(cfg: Config, t: nat, tables: Tables, rows: seq<Row>)
    requires t < TABLES && ImportRows(cfg, t, tables, rows).Some?
    ensures Covered(cfg, t, ImportRows(cfg, t, tables, rows).value[t], rows)
  {
    FileExact(cfg, t, tables, rows);
    var after := ImportRows(cfg, t, tables, rows).value;
    forall i | 0 <= i < |rows|
      ensures KeyOf(t, Converted(cfg, t, rows[i]).value) in after[t]
    {
      var k := KeyOf(t, Converted(cfg, t, rows[i]).value);
      assert HasKey(cfg, t, rows[i], k);
      KeysAfter(cfg, t, tables[t], after[t], rows, k);
    }
  }

  /** A file whose keys are all present is imported without an error and without a change. */
  lemma {:induction false} CoveredChangesNothing(cfg: Config, t: nat, tables: Tables, rows: seq<Row>)
    requires t < TABLES && Covered(cfg, t, tables[t], rows)
    ensures ImportRows(cfg, t, tables, rows) == Some(tables)
  {
    if rows != [] {
      var n := |rows| - 1;
      assert forall i :: 0 <= i < n ==> rows[..n][i] == rows[i];
      CoveredChangesNothing(cfg, t, tables, rows[..n]);
    }
  }
}
