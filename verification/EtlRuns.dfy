/** Whole imports: nine file transactions and eight sequence updates, stopped anywhere and started
    again; and the importer that runs them. */
module EtlRuns {
  import opened Wrappers
  import opened Sets
  import opened EtlTables
  import opened EtlFiles
  import opened EtlCells

  /** `next` is the id that a table's sequence generates next. */
  datatype Db = Db(tables: Tables, next: map<nat, int>)

  /** A CSV file as read: absent, unreadable, or its data rows (none for an empty file). */
  datatype File = Missing | Unreadable | Rows(rows: seq<Row>)

  type Files = fs: seq<File> | |fs| == TABLES witness seq(TABLES, _ => Missing)

  function RowsIn(f: File): seq<Row> {
    if f.Rows? then f.rows else []
  }

  function ImportFile(cfg: Config, t: nat, tables: Tables, file: File): Option<Tables>
    requires t < TABLES
  {
    if file.Unreadable? then None else ImportRows(cfg, t, tables, RowsIn(file))
  }

  // ---- Sequences

  const BUMPED: seq<nat> := [UNITS, EMPLOYEES, USERS, BUDGETS, SPDS, APPROVALS, DOCUMENTS, NOTIFICATIONS]
  const STEPS := 17

  lemma {:induction false} MaxExists(s: set<int>)
    requires s != {}
    ensures exists m :: m in s && forall x :: x in s ==> x <= m
  {
    SomeMember(s);
    var x :| x in s;
    var rest := s - {x};
    if rest == {} {
      assert forall y :: y in s ==> y == x || y in rest;
    } else {
      MaxExists(rest);
      var m :| m in rest && forall y :: y in rest ==> y <= m;
      var top := if x > m then x else m;
      assert top in s && forall y :: y in s ==> y == x || y in rest;
    }
  }

  function Max(s: set<int>): (m: int)
    requires s != {}
    ensures m in s && forall x :: x in s ==> x <= m
  {
    MaxExists(s);
    var m :| m in s && forall x :: x in s ==> x <= m;
    m
  }

  /** What the policies see of the session that updates the sequences: nothing at all, no setting, or
      settings that an earlier transaction of the session has left empty. */
  datatype Session = Bypassed | Unset | Cleared

  /** The importer sets an identity for each row of these two files, and for no others. */
  predicate Identifies(t: nat, file: File) {
    (t == BUDGETS || t == SPDS) && RowsIn(file) != []
  }

  function SessionAfter(bound: bool, identified: bool): Session {
    if !bound then Bypassed else if identified then Cleared else Unset
  }

  /** The session after the nine files. */
  function SessionOf(cfg: Config, files: Files): Session {
    SessionAfter(cfg.bound, Identifies(BUDGETS, files[BUDGETS]) || Identifies(SPDS, files[SPDS]))
  }

  /** What a session without an identity (user 0, no role) sees of a table. */
  predicate Visible(session: Session, tables: Tables, t: nat, rec: Record) {
    || session.Bypassed?
    || (t != BUDGETS && t != SPDS)
    || (t == SPDS && Field(rec, "created_by") == Int(0))
    || (Field(rec, "unit_id").Int? && Pair(0, IntField(rec, "unit_id")) in tables[USER_UNITS])
  }

  function VisibleIds(session: Session, tables: Tables, t: nat): set<int>
    requires t < TABLES
  {
    set k | k in tables[t] && k.Id? && Visible(session, tables, t, tables[t][k]) :: k.id
  }

  /** setval(..., COALESCE(MAX(id), 1), true): None when a policy cannot be evaluated or the value is
      below the least value of a sequence. */
  function BumpTo(session: Session, tables: Tables, t: nat): Option<int>
    requires t < TABLES
  {
    if session.Cleared? && (t == BUDGETS || t == SPDS) && tables[t] != map[] then None
    else
      var ids := VisibleIds(session, tables, t);
      var v := if ids == {} then 1 else Max(ids);
      if v >= 1 then Some(v) else None
  }

  // ---- Runs

  /** One committed step of an import. */
  function StepAt(cfg: Config, files: Files, db: Db, i: nat): Option<Db>
    requires i < STEPS
  {
    if i < TABLES then
      var r := ImportFile(cfg, i, db.tables, files[i]);
      if r.None? then None else Some(db.(tables := r.value))
    else
      var t := BUMPED[i - TABLES];
      var v := BumpTo(SessionOf(cfg, files), db.tables, t);
      if v.None? then None else Some(db.(next := db.next[t := v.value + 1]))
  }

  datatype Outcome = Outcome(db: Db, failed: bool)

  function Advance(cfg: Config, files: Files, o: Outcome, i: nat): Outcome
    requires i < STEPS
  {
    if o.failed then o
    else
      var r := StepAt(cfg, files, o.db, i);
      if r.None? then Outcome(o.db, true) else Outcome(r.value, false)
  }

  /** An import that ends by itself or is stopped after `n` committed steps. */
  function Attempt(cfg: Config, files: Files, db: Db, n: nat): Outcome
    requires n <= STEPS
  {
    if n == 0 then Outcome(db, false) else Advance(cfg, files, Attempt(cfg, files, db, n - 1), n - 1)
  }

  function Stopped(n: nat): nat {
    if n < STEPS then n else STEPS
  }

  /** The database after attempts that were stopped at the given steps. */
  function Attempts(cfg: Config, files: Files, db: Db, stops: seq<nat>): Db {
    if stops == [] then db
    else
      var n := |stops| - 1;
      Attempt(cfg, files, Attempts(cfg, files, db, stops[..n]), Stopped(stops[n])).db
  }

  /** What a step leaves behind, and what makes repeating it harmless. */
  predicate Done(cfg: Config, files: Files, db: Db, i: nat)
    requires i < STEPS
  {
    if i < TABLES then !files[i].Unreadable? && Covered(cfg, i, db.tables[i], RowsIn(files[i]))
    else
      var t := BUMPED[i - TABLES];
      var v := BumpTo(SessionOf(cfg, files), db.tables, t);
      v.Some? && t in db.next && db.next[t] == v.value + 1
  }

  lemma StepDone(cfg: Config, files: Files, db: Db, i: nat, after: Db)
    requires i < STEPS && StepAt(cfg, files, db, i) == Some(after)
    ensures Done(cfg, files, after, i)
  {
    if i < TABLES {
      CoveredAfter(cfg, i, db.tables, RowsIn(files[i]));
    }
  }

  lemma DoneAgain(cfg: Config, files: Files, db: Db, i: nat)
    requires i < STEPS && Done(cfg, files, db, i)
    ensures StepAt(cfg, files, db, i) == Some(db)
  {
    if i < TABLES {
      CoveredChangesNothing(cfg, i, db.tables, RowsIn(files[i]));
    } else {
      var t := BUMPED[i - TABLES];
      SameMap(db.next[t := db.next[t]], db.next);
    }
  }

  lemma DoneStays(cfg: Config, files: Files, db: Db, i: nat, j: nat, after: Db)
    requires i < j < STEPS && Done(cfg, files, db, i) && StepAt(cfg, files, db, j) == Some(after)
    ensures Done(cfg, files, after, i)
  {
    if j < TABLES {
      FileExact(cfg, j, db.tables, RowsIn(files[j]));
    } else if i >= TABLES {
      assert BUMPED[i - TABLES] != BUMPED[j - TABLES];
    }
  }

  /** The last step of an attempt that has not failed. */
  lemma GoodStep(cfg: Config, files: Files, db: Db, n: nat)
    requires n < STEPS && !Attempt(cfg, files, db, n + 1).failed
    ensures var before := Attempt(cfg, files, db, n);
      !before.failed && StepAt(cfg, files, before.db, n) == Some(Attempt(cfg, files, db, n + 1).db)
  {
  }

  lemma {:induction false} DoneBefore(cfg: Config, files: Files, db: Db, n: nat, i: nat)
    requires i < n <= STEPS && !Attempt(cfg, files, db, n).failed
    ensures Done(cfg, files, Attempt(cfg, files, db, n).db, i)
  {
    var before, after := Attempt(cfg, files, db, n - 1), Attempt(cfg, files, db, n);
    GoodStep(cfg, files, db, n - 1);
    if i == n - 1 {
      StepDone(cfg, files, before.db, i, after.db);
    } else {
      DoneBefore(cfg, files, db, n - 1, i);
      DoneStays(cfg, files, before.db, i, n - 1, after.db);
    }
  }

  /** From the state that `n` steps left, an import goes through them again without a change. */
  lemma {:induction false} Replay(cfg: Config, files: Files, db: Db, n: nat, m: nat)
    requires m <= n <= STEPS && !Attempt(cfg, files, db, n).failed
    ensures Attempt(cfg, files, Attempt(cfg, files, db, n).db, m) == Outcome(Attempt(cfg, files, db, n).db, false)
  {
    if m > 0 {
      Replay(cfg, files, db, n, m - 1);
      DoneBefore(cfg, files, db, n, m - 1);
      DoneAgain(cfg, files, Attempt(cfg, files, db, n).db, m - 1);
    }
  }

  /** ... and then goes on as the first one would have. */
  lemma {:induction false} Resume(cfg: Config, files: Files, db: Db, n: nat, m: nat)
    requires n <= m <= STEPS && !Attempt(cfg, files, db, n).failed
    ensures Attempt(cfg, files, Attempt(cfg, files, db, n).db, m) == Attempt(cfg, files, db, m)
    decreases m
  {
    if m == n {
      Replay(cfg, files, db, n, n);
    } else {
      Resume(cfg, files, db, n, m - 1);
    }
  }

  /** A failed attempt leaves what its successful steps committed. */
  lemma {:induction false} LastGood(cfg: Config, files: Files, db: Db, n: nat) returns (m: nat)
    requires n <= STEPS
    ensures m <= n && Attempt(cfg, files, db, m) == Outcome(Attempt(cfg, files, db, n).db, false)
  {
    if Attempt(cfg, files, db, n).failed {
      m := LastGood(cfg, files, db, n - 1);
    } else {
      m := n;
    }
  }

  /** Crash-restart convergence: after any number of attempts, each stopped anywhere, a last import
      ends exactly as a single one would have, whether that one completes or fails. */
  lemma {:induction false} Converges(cfg: Config, files: Files, db: Db, stops: seq<nat>)
    ensures Attempt(cfg, files, Attempts(cfg, files, db, stops), STEPS) == Attempt(cfg, files, db, STEPS)
  {
    if stops != [] {
      var n := |stops| - 1;
      Converges(cfg, files, db, stops[..n]);
      var start := Attempts(cfg, files, db, stops[..n]);
      var m := LastGood(cfg, files, start, Stopped(stops[n]));
      Resume(cfg, files, start, m, STEPS);
    }
  }

  // ---- What an import stores

  /** A step changes one table, by its file, or none. */
  lemma TableStep(cfg: Config, files: Files, db: Db, i: nat, t: nat)
    requires i < STEPS && t < TABLES && StepAt(cfg, files, db, i).Some?
    ensures var after := StepAt(cfg, files, db, i).value;
      if i == t then Imported(cfg, t, db.tables[t], after.tables[t], RowsIn(files[t]))
      else after.tables[t] == db.tables[t]
  {
    if i < TABLES {
      ImportExact(cfg, i, db.tables, RowsIn(files[i]));
    }
  }

  /** How far table `t` is once `n` steps have been tried. */
  ghost predicate Progress(cfg: Config, files: Files, t: nat, table: Table, n: nat, o: Outcome)
    requires t < TABLES
  {
    && (t >= n ==> o.db.tables[t] == table)
    && (o.db.tables[t] == table || Imported(cfg, t, table, o.db.tables[t], RowsIn(files[t])))
    && (t < n && !o.failed ==> Imported(cfg, t, table, o.db.tables[t], RowsIn(files[t])))
  }

  lemma ProgressKept(cfg: Config, files: Files, t: nat, table: Table, n: nat, o: Outcome, o': Outcome)
    requires t < TABLES && Progress(cfg, files, t, table, n, o) && o'.db.tables[t] == o.db.tables[t]
    requires t != n && (o.failed ==> o'.failed)
    ensures Progress(cfg, files, t, table, n + 1, o')
  {
  }

  lemma ProgressStep(cfg: Config, files: Files, t: nat, table: Table, n: nat, o: Outcome)
    requires t < TABLES && n < STEPS && Progress(cfg, files, t, table, n, o)
    ensures Progress(cfg, files, t, table, n + 1, Advance(cfg, files, o, n))
  {
    var o' := Advance(cfg, files, o, n);
    if !o'.failed {
      TableStep(cfg, files, o.db, n, t);
    }
    if t != n {
      ProgressKept(cfg, files, t, table, n, o, o');
    }
  }

  /** Whenever it stops, each table is either as it was or holds its whole file, the first row of each
      new key as its cells say; it is the latter once its step has committed. */
  lemma {:induction false} AllOrNothing(cfg: Config, files: Files, db: Db, n: nat, t: nat)
    requires n <= STEPS && t < TABLES
    ensures var o := Attempt(cfg, files, db, n);
      && (t >= n ==> o.db.tables[t] == db.tables[t])
      && (o.db.tables[t] == db.tables[t] || Imported(cfg, t, db.tables[t], o.db.tables[t], RowsIn(files[t])))
      && (t < n && !o.failed ==> Imported(cfg, t, db.tables[t], o.db.tables[t], RowsIn(files[t])))
    ensures Progress(cfg, files, t, db.tables[t], n, Attempt(cfg, files, db, n))
  {
    if n > 0 {
      AllOrNothing(cfg, files, db, n - 1, t);
      ProgressStep(cfg, files, t, db.tables[t], n - 1, Attempt(cfg, files, db, n - 1));
    }
  }

  // ---- The importer

  class Importer {
    var tables: Tables
    var next: map<nat, int>
    var identified: bool // a transaction of this session has set an identity
    const cfg: Config

    constructor (cfg: Config, db: Db)
      ensures tables == db.tables && next == db.next && !identified && this.cfg == cfg
    {
      this.cfg, tables, next, identified := cfg, db.tables, db.next, false;
    }

    /** One pass of the loop over the rows. */
    method InsertRow(t: nat, tables: Tables, row: Row) returns (tx: Option<Tables>)
      requires t < TABLES
      ensures tx == ImportRow(cfg, t, tables, row)
    {
      var rec := Converted(cfg, t, row);
      if rec.None? {
        return None;
      }
      tx := Insert(t, tables, rec.value);
    }

    /** The rows of a file inside their transaction, which sees its own inserts; None ends it. */
    method InsertRows(t: nat, tables: Tables, rows: seq<Row>) returns (tx: Option<Tables>)
      requires t < TABLES
      ensures tx == ImportRows(cfg, t, tables, rows)
    {
      tx := Some(tables);
      var n := 0;
      while n < |rows|
        invariant 0 <= n <= |rows| && tx.Some?
        invariant ImportRows(cfg, t, tables, rows[..n]) == tx
      {
        NextRow(cfg, t, tables, rows, n, tx.value);
        tx := InsertRow(t, tx.value, rows[n]);
        n := n + 1;
        if tx.None? {
          StopsHere(cfg, t, tables, rows, n);
          return;
        }
      }
      assert rows[..n] == rows;
    }

    /** migrateUnits, migrateEmployees and the others, for table `t`. */
    method MigrateFile(t: nat, file: File, dry: bool) returns (ok: bool)
      requires t < TABLES
      modifies this`tables, this`identified
      ensures identified == (old(identified) || (ok && !dry && Identifies(t, file)))
      ensures dry ==> ok == !file.Unreadable? && tables == old(tables)
      ensures !dry ==> ok == ImportFile(cfg, t, old(tables), file).Some?
      ensures !dry ==> tables == if ok then ImportFile(cfg, t, old(tables), file).value else old(tables)
      ensures !dry ==> (ok <==> !file.Unreadable? && Importable(cfg, t, old(tables), RowsIn(file)))
      ensures !dry && ok ==> Imported(cfg, t, old(tables)[t], tables[t], RowsIn(file)) && SameElsewhere(t, old(tables), tables)
    {
      ImportExact(cfg, t, tables, RowsIn(file));
      if file.Unreadable? || RowsIn(file) == [] || dry {
        return !file.Unreadable?;
      }
      var tx := InsertRows(t, tables, file.rows);
      if tx.None? {
        return false;
      }
      tables := tx.value;
      identified := identified || Identifies(t, file);
      ok := true;
    }

    method BumpSequences() returns (ok: bool, done: nat)
      modifies this`next
      ensures done <= |BUMPED| && (ok <==> done == |BUMPED|)
      ensures forall i :: 0 <= i < done ==> BumpTo(SessionAfter(cfg.bound, identified), tables, BUMPED[i]).Some?
      ensures !ok ==> BumpTo(SessionAfter(cfg.bound, identified), tables, BUMPED[done]).None?
      ensures next == Bumped(SessionAfter(cfg.bound, identified), tables, old(next), done)
    {
      done := 0;
      while done < |BUMPED|
        invariant 0 <= done <= |BUMPED|
        invariant forall i :: 0 <= i < done ==> BumpTo(SessionAfter(cfg.bound, identified), tables, BUMPED[i]).Some?
        invariant next == Bumped(SessionAfter(cfg.bound, identified), tables, old(next), done)
      {
        var t := BUMPED[done];
        var v := BumpTo(SessionAfter(cfg.bound, identified), tables, t);
        if v.None? {
          return false, done;
        }
        next := next[t := v.value + 1];
        done := done + 1;
      }
      ok := true;
    }

    /** The whole tool, as a new process with one new session: it exits at the first error. */
    method Import(files: Files, dry: bool) returns (ok: bool)
      modifies this
      ensures dry ==> tables == old(tables) && next == old(next)
      ensures dry ==> (ok <==> forall t :: 0 <= t < TABLES ==> !files[t].Unreadable?)
      ensures !dry ==> Outcome(Db(tables, next), !ok) == Attempt(cfg, files, old(Db(tables, next)), STEPS)
    {
      ghost var start := Db(tables, next);
      identified := false;
      var t := 0;
      while t < TABLES
        invariant 0 <= t <= TABLES && next == old(next)
        invariant !dry ==> identified == ((t > BUDGETS && Identifies(BUDGETS, files[BUDGETS]))
                                          || (t > SPDS && Identifies(SPDS, files[SPDS])))
        invariant dry ==> tables == old(tables) && forall u :: 0 <= u < t ==> !files[u].Unreadable?
        invariant !dry ==> Attempt(cfg, files, start, t) == Outcome(Db(tables, next), false)
      {
        ok := MigrateFile(t, files[t], dry);
        if !ok {
          if !dry {
            Fails(cfg, files, start, t, STEPS);
          }
          return;
        }
        t := t + 1;
      }
      if !dry {
        ghost var imported := Db(tables, next);
        var done;
        ok, done := BumpSequences();
        BumpedRun(cfg, files, start, imported, done);
        if !ok {
          Fails(cfg, files, start, TABLES + done, STEPS);
        }
      } else {
        ok := true;
      }
    }
  }

  /** The sequences after the first `n` updates. */
  function Bumped(session: Session, tables: Tables, next: map<nat, int>, n: nat): map<nat, int>
    requires n <= |BUMPED|
    requires forall i :: 0 <= i < n ==> BumpTo(session, tables, BUMPED[i]).Some?
  {
    if n == 0 then next
    else Bumped(session, tables, next, n - 1)[BUMPED[n - 1] := BumpTo(session, tables, BUMPED[n - 1]).value + 1]
  }

  lemma BumpStep(cfg: Config, files: Files, o: Outcome, i: nat)
    requires i < |BUMPED| && !o.failed && BumpTo(SessionOf(cfg, files), o.db.tables, BUMPED[i]).Some?
    ensures Advance(cfg, files, o, TABLES + i) ==
      Outcome(o.db.(next := o.db.next[BUMPED[i] := BumpTo(SessionOf(cfg, files), o.db.tables, BUMPED[i]).value + 1]), false)
  {
  }

  lemma {:induction false} BumpedRun(cfg: Config, files: Files, start: Db, db: Db, n: nat)
    requires n <= |BUMPED| && Attempt(cfg, files, start, TABLES) == Outcome(db, false)
    requires forall i :: 0 <= i < n ==> BumpTo(SessionOf(cfg, files), db.tables, BUMPED[i]).Some?
    ensures Attempt(cfg, files, start, TABLES + n)
         == Outcome(Db(db.tables, Bumped(SessionOf(cfg, files), db.tables, db.next, n)), false)
  {
    if n > 0 {
      BumpedRun(cfg, files, start, db, n - 1);
      BumpStep(cfg, files, Attempt(cfg, files, start, TABLES + n - 1), n - 1);
    }
  }

  lemma FailedStays(cfg: Config, files: Files, db: Db, n: nat)
    requires n < STEPS && Attempt(cfg, files, db, n).failed
    ensures Attempt(cfg, files, db, n + 1) == Attempt(cfg, files, db, n)
  {
  }

  lemma FailsNow(cfg: Config, files: Files, db: Db, n: nat)
    requires n < STEPS && !Attempt(cfg, files, db, n).failed
    requires StepAt(cfg, files, Attempt(cfg, files, db, n).db, n).None?
    ensures Attempt(cfg, files, db, n + 1) == Outcome(Attempt(cfg, files, db, n).db, true)
  {
  }

  lemma {:induction false} FailedFrom(cfg: Config, files: Files, db: Db, n: nat, m: nat)
    requires n <= m <= STEPS && Attempt(cfg, files, db, n).failed
    ensures Attempt(cfg, files, db, m) == Attempt(cfg, files, db, n)
    decreases m
  {
    if m > n {
      FailedFrom(cfg, files, db, n, m - 1);
      FailedStays(cfg, files, db, m - 1);
    }
  }

  /** An import ends at the first step that fails. */
  lemma Fails(cfg: Config, files: Files, db: Db, n: nat, m: nat)
    requires n < m <= STEPS && !Attempt(cfg, files, db, n).failed
    requires StepAt(cfg, files, Attempt(cfg, files, db, n).db, n).None?
    ensures Attempt(cfg, files, db, m) == Outcome(Attempt(cfg, files, db, n).db, true)
  {
    FailsNow(cfg, files, db, n);
    FailedFrom(cfg, files, db, n + 1, m);
  }

  lemma NextRow(cfg: Config, t: nat, tables: Tables, rows: seq<Row>, n: nat, tx: Tables)
    requires t < TABLES && n < |rows| && ImportRows(cfg, t, tables, rows[..n]) == Some(tx)
    ensures ImportRows(cfg, t, tables, rows[..n + 1]) == ImportRow(cfg, t, tx, rows[n])
  {
    assert rows[..n + 1][..n] == rows[..n];
  }

  /** A transaction that fails at a row has failed. */
  lemma {:induction false} StopsHere(cfg: Config, t: nat, tables: Tables, rows: seq<Row>, n: nat)
    requires t < TABLES && n <= |rows| && ImportRows(cfg, t, tables, rows[..n]).None?
    ensures ImportRows(cfg, t, tables, rows).None?
    decreases |rows|
  {
    if n < |rows| {
      assert rows[..|rows| - 1][..n] == rows[..n];
      StopsHere(cfg, t, tables, rows[..|rows| - 1], n);
    } else {
      assert rows[..n] == rows;
    }
  }
}
