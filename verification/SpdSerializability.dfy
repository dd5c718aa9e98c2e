/** Every interleaving of the workflow's transactions leaves a database that some serial order of
    the committed ones also leaves. The serial order is the commit order, except that the insert
    of a row may move later, past decisions that did not touch the row. */
module SpdSerializability {
  import opened Wrappers
  import opened SpdTables
  import opened SpdProtocol

  predicate OnlyInserts(txs: seq<Tx>) {
    forall i :: 0 <= i < |txs| ==> txs[i].Insert?
  }

  /** The rows that a sequence of inserts creates. */
  function Rows(txs: seq<Tx>): map<int, Approval>
    requires OnlyInserts(txs)
  {
    if txs == [] then map[]
    else
      var last := txs[|txs| - 1];
      Rows(txs[..|txs| - 1])[last.row := PendingRow(last.spd, last.step)]
  }

  predicate DistinctRows(txs: seq<Tx>)
    requires OnlyInserts(txs)
  {
    txs == [] || (txs[|txs| - 1].row !in Rows(txs[..|txs| - 1]) && DistinctRows(txs[..|txs| - 1]))
  }

  lemma {:induction false} InsertsRun(pol: Policies, db: Db, txs: seq<Tx>)
    requires OnlyInserts(txs) && DistinctRows(txs)
    requires forall r :: r in Rows(txs) ==> r !in db.approvals && Rows(txs)[r].spd in db.spds
    ensures RunAll(pol, db, txs) == Some(Db(db.spds, db.approvals + Rows(txs)))
  {
    if txs == [] {
      assert db.approvals + map[] == db.approvals;
    } else {
      var init, last := txs[..|txs| - 1], txs[|txs| - 1];
      forall r | r in Rows(init)
        ensures r !in db.approvals && Rows(init)[r].spd in db.spds
      {
        assert r in Rows(txs) && Rows(txs)[r] == Rows(init)[r];
      }
      InsertsRun(pol, db, init);
      assert last.row in Rows(txs);
      assert db.approvals + Rows(txs) == (db.approvals + Rows(init))[last.row := PendingRow(last.spd, last.step)];
    }
  }

  /** The inserts of the given rows, in order (`keep`), or all the others. */
  function Pick(txs: seq<Tx>, rows: set<int>, keep: bool): (r: seq<Tx>)
    requires OnlyInserts(txs)
    ensures OnlyInserts(r)
  {
    if txs == [] then []
    else
      var last := txs[|txs| - 1];
      var init := Pick(txs[..|txs| - 1], rows, keep);
      if (last.row in rows) == keep then init + [last] else init
  }

  lemma {:induction false} PickRows(txs: seq<Tx>, rows: set<int>, keep: bool)
    requires OnlyInserts(txs) && DistinctRows(txs)
    ensures DistinctRows(Pick(txs, rows, keep))
    ensures forall r :: r in Rows(Pick(txs, rows, keep)) <==> r in Rows(txs) && (r in rows) == keep
    ensures forall r :: r in Rows(Pick(txs, rows, keep)) ==> Rows(Pick(txs, rows, keep))[r] == Rows(txs)[r]
  {
    if txs != [] {
      var init, last := txs[..|txs| - 1], txs[|txs| - 1];
      PickRows(init, rows, keep);
      var p := Pick(init, rows, keep);
      assert (p + [last])[..|p|] == p;
    }
  }

  lemma {:induction false} PickAll(txs: seq<Tx>, rows: set<int>)
    requires OnlyInserts(txs)
    ensures multiset(Pick(txs, rows, true)) + multiset(Pick(txs, rows, false)) == multiset(txs)
  {
    if txs != [] {
      PickAll(txs[..|txs| - 1], rows);
      assert txs == txs[..|txs| - 1] + [txs[|txs| - 1]];
    }
  }

  /** The transactions that are not row inserts, in order. */
  function NonInserts(txs: seq<Tx>): seq<Tx> {
    if txs == [] then []
    else
      var init := NonInserts(txs[..|txs| - 1]);
      if txs[|txs| - 1].Insert? then init else init + [txs[|txs| - 1]]
  }

  lemma Regroup(a: seq<Tx>, b: seq<Tx>, c: seq<Tx>)
    ensures (a + b) + c == a + (b + c)
  {
  }

  lemma {:induction false} NonInsertsAppend(a: seq<Tx>, b: seq<Tx>)
    ensures NonInserts(a + b) == NonInserts(a) + NonInserts(b)
  {
    if b == [] {
      assert a + b == a;
    } else {
      var init, last := b[..|b| - 1], b[|b| - 1];
      assert b == init + [last];
      NonInsertsAppend(a, init);
      Regroup(a, init, [last]);
      NonInsertsLast(a + init, last);
      NonInsertsLast(init, last);
      Regroup(NonInserts(a), NonInserts(init), [last]);
    }
  }

  lemma NonInsertsLast(txs: seq<Tx>, tx: Tx)
    ensures NonInserts(txs + [tx]) == if tx.Insert? then NonInserts(txs) else NonInserts(txs) + [tx]
  {
    assert (txs + [tx])[..|txs|] == txs;
  }

  lemma {:induction false} OnlyInsertsNone(b: seq<Tx>)
    requires OnlyInserts(b)
    ensures NonInserts(b) == []
  {
    if b != [] {
      OnlyInsertsNone(b[..|b| - 1]);
    }
  }

  /** A serial order in two parts: after `front` only inserts of still undecided rows follow. */
  datatype Order = Order(front: seq<Tx>, tail: seq<Tx>)

  predicate TailOk(w: World, o: Order) {
    && OnlyInserts(o.tail) && DistinctRows(o.tail)
    && forall r :: r in Rows(o.tail) ==> r in w.db.approvals && w.db.approvals[r] == Rows(o.tail)[r]
  }

  /** The database without the rows of the tail. */
  function Core(w: World, o: Order): Db
    requires TailOk(w, o)
  {
    Db(w.db.spds, w.db.approvals - Rows(o.tail).Keys)
  }

  predicate OrderInv(cfg: Config, db0: Db, w: World, o: Order) {
    && TailOk(w, o)
    && RunAll(cfg.pol, db0, o.front) == Some(Core(w, o))
    && SameLog(o, w.log)
    && OldPending(db0, w.db.approvals, Rows(o.tail).Keys)
  }

  /** The order has the transactions of the log, and all but the inserts in the order of the log. */
  predicate SameLog(o: Order, log: seq<Tx>) {
    multiset(o.front + o.tail) == multiset(log) && NonInserts(o.front) == NonInserts(log)
  }

  /** A pending row outside the tail was there at the start. */
  predicate OldPending(db0: Db, approvals: map<int, Approval>, tail: set<int>) {
    forall r :: r in approvals && r !in tail && approvals[r].status == Pending ==> r in db0.approvals
  }

  /** A decision that has scanned has, of the rows present at the start, reached or still to
      reach every one that its WHERE clause accepts. */
  predicate Covers(db0: Db, w: World, pid: int)
    requires pid in w.work
  {
    w.work[pid].Deciding? && !w.work[pid].phase.Started? ==>
      forall r :: r in db0.approvals && r in w.db.approvals && Matches(w.db.approvals[r], w.work[pid].req) ==>
        || (w.work[pid].phase.Scanning? && r in w.work[pid].phase.todo)
        || r in Held(w, pid)
  }

  predicate CoverInv(db0: Db, w: World) {
    forall pid :: pid in w.work ==> Covers(db0, w, pid)
  }

  lemma CoverStep(cfg: Config, db0: Db, w: World, step: Step)
    requires LockInv(cfg, w) && CoverInv(db0, w)
    requires forall r :: r in db0.approvals ==> r in w.db.approvals
    ensures CoverInv(db0, Next(cfg, w, step))
    ensures forall r :: r in db0.approvals ==> r in Next(cfg, w, step).db.approvals
  {
    var w' := Next(cfg, w, step);
    forall r | r in w.db.approvals
      ensures r in w'.db.approvals
    {
      RowStays(cfg, w, step, r);
    }
    forall pid | pid in w'.work
      ensures Covers(db0, w', pid)
    {
      CoversStep(cfg, db0, w, step, pid);
    }
  }

  /** Rows are never deleted, and a row that still matches a decision has not been changed. */
  lemma RowStays(cfg: Config, w: World, step: Step, r: int)
    requires r in w.db.approvals
    ensures var table := Next(cfg, w, step).db.approvals;
      r in table && (table[r].status == Pending ==> table[r] == w.db.approvals[r])
  {
  }

  lemma CoversStep(cfg: Config, db0: Db, w: World, step: Step, pid: int)
    requires pid in w.work ==> Covers(db0, w, pid)
    requires forall r :: r in db0.approvals ==> r in w.db.approvals
    requires pid in Next(cfg, w, step).work
    ensures Covers(db0, Next(cfg, w, step), pid)
  {
    var w' := Next(cfg, w, step);
    if pid in w.work {
      if w'.work[pid] == w.work[pid] {
        HeldGrows(cfg, w, step, pid);
        forall r | r in db0.approvals
          ensures r in w'.db.approvals && (w'.db.approvals[r].status == Pending ==> w'.db.approvals[r] == w.db.approvals[r])
        {
          RowStays(cfg, w, step, r);
        }
        CoversKept(db0, w, w', pid);
      } else {
        CoversMoves(cfg, db0, w, step, pid);
      }
    }
  }

  /** A decision that takes a step of its own. */
  lemma CoversMoves(cfg: Config, db0: Db, w: World, step: Step, pid: int)
    requires pid in w.work && Covers(db0, w, pid)
    requires forall r :: r in db0.approvals ==> r in w.db.approvals
    requires pid in Next(cfg, w, step).work && Next(cfg, w, step).work[pid] != w.work[pid]
    ensures Covers(db0, Next(cfg, w, step), pid)
  {
    MovesAlone(cfg, w, step, pid);
  }

  /** Such a step changes no row, and adds at most the lock of the row that it visits. */
  lemma MovesAlone(cfg: Config, w: World, step: Step, pid: int)
    requires pid in w.work
    requires pid in Next(cfg, w, step).work && Next(cfg, w, step).work[pid] != w.work[pid]
    ensures Next(cfg, w, step).db.approvals == w.db.approvals
  {
  }

  /** While a decision waits, rows that match it now matched it before. */
  lemma CoversKept(db0: Db, w: World, w': World, pid: int)
    requires pid in w.work && pid in w'.work && w'.work[pid] == w.work[pid] && Covers(db0, w, pid)
    requires Held(w, pid) <= Held(w', pid)
    requires forall r :: r in db0.approvals ==> r in w.db.approvals
    requires forall r :: r in db0.approvals ==>
      r in w'.db.approvals && (w'.db.approvals[r].status == Pending ==> w'.db.approvals[r] == w.db.approvals[r])
    ensures Covers(db0, w', pid)
  {
  }

  lemma LogFront(o: Order, log: seq<Tx>, tx: Tx)
    requires SameLog(o, log) && !tx.Insert?
    ensures SameLog(Order(o.front + [tx], o.tail), log + [tx])
  {
    NonInsertsLast(o.front, tx);
    NonInsertsLast(log, tx);
  }

  lemma LogTail(o: Order, log: seq<Tx>, tx: Tx)
    requires SameLog(o, log) && tx.Insert?
    ensures SameLog(Order(o.front, o.tail + [tx]), log + [tx])
  {
    Regroup(o.front, o.tail, [tx]);
    NonInsertsLast(log, tx);
  }

  /** A decision at the end of the front, after some of the tail's inserts. */
  lemma LogDecision(o: Order, log: seq<Tx>, rows: set<int>, tx: Tx)
    requires SameLog(o, log) && !tx.Insert? && OnlyInserts(o.tail) && DistinctRows(o.tail)
    ensures SameLog(Order(o.front + Pick(o.tail, rows, true) + [tx], Pick(o.tail, rows, false)), log + [tx])
  {
    PickRows(o.tail, rows, true);
    SameTransactions(o, rows, tx);
    NonInsertsAppend(o.front, Pick(o.tail, rows, true));
    OnlyInsertsNone(Pick(o.tail, rows, true));
    NonInsertsLast(o.front + Pick(o.tail, rows, true), tx);
    NonInsertsLast(log, tx);
  }

  lemma RunOneMore(pol: Policies, db0: Db, txs: seq<Tx>, tx: Tx)
    requires RunAll(pol, db0, txs).Some?
    ensures RunAll(pol, db0, txs + [tx]) == RunTx(pol, RunAll(pol, db0, txs).value, tx)
  {
    assert (txs + [tx])[..|txs|] == txs;
  }

  lemma AppendToFront(cfg: Config, db0: Db, w: World, o: Order, w': World, tx: Tx)
    requires OrderInv(cfg, db0, w, o) && !tx.Insert?
    requires w'.db.approvals == w.db.approvals && w'.log == w.log + [tx]
    requires RunTx(cfg.pol, Core(w, o), tx) == Some(Db(w'.db.spds, Core(w, o).approvals))
    ensures OrderInv(cfg, db0, w', Order(o.front + [tx], o.tail))
  {
    RunOneMore(cfg.pol, db0, o.front, tx);
    LogFront(o, w.log, tx);
  }

  /** A fresh row joins the tail and stays outside the core. */
  lemma TailGrows(w: World, o: Order, db: Db, tx: Tx)
    requires TailOk(w, o) && tx.Insert? && tx.row !in w.db.approvals
    requires db == w.db.(approvals := w.db.approvals[tx.row := PendingRow(tx.spd, tx.step)])
    ensures OnlyInserts(o.tail + [tx]) && DistinctRows(o.tail + [tx])
    ensures Rows(o.tail + [tx]) == Rows(o.tail)[tx.row := PendingRow(tx.spd, tx.step)]
    ensures db.approvals - Rows(o.tail + [tx]).Keys == w.db.approvals - Rows(o.tail).Keys
  {
    assert (o.tail + [tx])[..|o.tail|] == o.tail;
  }

  lemma AppendInsert(cfg: Config, db0: Db, w: World, o: Order, w': World, tx: Tx)
    requires OrderInv(cfg, db0, w, o) && tx.Insert? && tx.row !in w.db.approvals
    requires w'.db == w.db.(approvals := w.db.approvals[tx.row := PendingRow(tx.spd, tx.step)])
    requires w'.log == w.log + [tx]
    ensures OrderInv(cfg, db0, w', Order(o.front, o.tail + [tx]))
  {
    TailGrows(w, o, w'.db, tx);
    LogTail(o, w.log, tx);
  }

  /** Taking two parts out of a table and putting one back. */
  lemma RestoreRows(table: map<int, Approval>, part: map<int, Approval>, gone: set<int>, other: set<int>)
    requires forall r :: r in part ==> r in table && table[r] == part[r] && r !in other
    requires forall r :: r in gone <==> r in part || r in other
    ensures (table - gone) + part == table - other
  {
    var left, right := (table - gone) + part, table - other;
    assert forall r :: r in left <==> r in right;
    assert forall r :: r in left ==> left[r] == right[r];
  }

  /** Running the front and then the inserts of the rows in `rows` gives the database without the
      other rows of the tail. */
  lemma JoinPicked(cfg: Config, db0: Db, w: World, o: Order, rows: set<int>)
    requires ForeignKey(w.db) && OrderInv(cfg, db0, w, o)
    ensures DistinctRows(Pick(o.tail, rows, false))
    ensures var rest := Rows(Pick(o.tail, rows, false)).Keys;
      RunAll(cfg.pol, db0, o.front + Pick(o.tail, rows, true)) == Some(Db(w.db.spds, w.db.approvals - rest))
  {
    var mine, rest := Pick(o.tail, rows, true), Pick(o.tail, rows, false);
    PickRows(o.tail, rows, true);
    PickRows(o.tail, rows, false);
    InsertsRun(cfg.pol, Core(w, o), mine);
    RunAllAppend(cfg.pol, db0, o.front, mine);
    RestoreRows(w.db.approvals, Rows(mine), Rows(o.tail).Keys, Rows(rest).Keys);
  }

  /** In the database without the tail's other rows, a finished decision matches what it holds. */
  lemma MatchesHeld(cfg: Config, db0: Db, w: World, o: Order, pid: int)
    requires LockInv(cfg, w) && CoverInv(db0, w) && OrderInv(cfg, db0, w, o)
    requires pid in w.work && w.work[pid].Deciding? && w.work[pid].phase.Finished?
    ensures var others := Rows(Pick(o.tail, Held(w, pid), false)).Keys;
      MatchingRows(w.db.approvals - others, w.work[pid].req) == Held(w, pid)
  {
    var d, held := w.work[pid].req, Held(w, pid);
    PickRows(o.tail, held, false);
    var table := w.db.approvals - Rows(Pick(o.tail, held, false)).Keys;
    assert Covers(db0, w, pid);
    forall r
      ensures r in MatchingRows(table, d) <==> r in held
    {
      if r in held {
        assert RowLockOk(w, r);
      }
    }
  }

  /** The committing decision joins the front together with the inserts of the rows it decides. */
  lemma AppendDecision(cfg: Config, db0: Db, w: World, o: Order, pid: int)
    requires LockInv(cfg, w) && CoverInv(db0, w) && OrderInv(cfg, db0, w, o)
    requires pid in w.work && w.work[pid].Deciding? && w.work[pid].phase.Finished?
    ensures var held := Held(w, pid);
      OrderInv(cfg, db0, Next(cfg, w, CommitDecision(pid)),
        Order(o.front + Pick(o.tail, held, true) + [Decide(w.work[pid].req)], Pick(o.tail, held, false)))
  {
    var d, held := w.work[pid].req, Held(w, pid);
    FrontRuns(cfg, db0, w, o, pid);
    UndecidedRows(cfg, db0, w, o, pid);
    Assemble(cfg, db0, w, o, held, d, Next(cfg, w, CommitDecision(pid)));
  }

  lemma Assemble(cfg: Config, db0: Db, w: World, o: Order, rows: set<int>, d: Decision, w': World)
    requires OrderInv(cfg, db0, w, o) && w'.log == w.log + [Decide(d)]
    requires var o' := Order(o.front + Pick(o.tail, rows, true) + [Decide(d)], Pick(o.tail, rows, false));
      && TailOk(w', o')
      && RunAll(cfg.pol, db0, o'.front) == Some(Core(w', o'))
      && OldPending(db0, w'.db.approvals, Rows(o'.tail).Keys)
    ensures OrderInv(cfg, db0, w',
      Order(o.front + Pick(o.tail, rows, true) + [Decide(d)], Pick(o.tail, rows, false)))
  {
    LogDecision(o, w.log, rows, Decide(d));
  }

  lemma FrontRuns(cfg: Config, db0: Db, w: World, o: Order, pid: int)
    requires LockInv(cfg, w) && CoverInv(db0, w) && OrderInv(cfg, db0, w, o)
    requires pid in w.work && w.work[pid].Deciding? && w.work[pid].phase.Finished?
    ensures var mine, rest := Pick(o.tail, Held(w, pid), true), Pick(o.tail, Held(w, pid), false);
      var after := Next(cfg, w, CommitDecision(pid)).db;
      && DistinctRows(rest)
      && RunAll(cfg.pol, db0, o.front + mine + [Decide(w.work[pid].req)])
           == Some(Db(after.spds, after.approvals - Rows(rest).Keys))
  {
    var mine, rest := Pick(o.tail, Held(w, pid), true), Pick(o.tail, Held(w, pid), false);
    JoinPicked(cfg, db0, w, o, Held(w, pid));
    MatchesHeld(cfg, db0, w, o, pid);
    CommitEffect(cfg, w, pid, Rows(rest).Keys);
    var txs := o.front + mine + [Decide(w.work[pid].req)];
    assert txs[..|txs| - 1] == o.front + mine;
  }

  /** A commit changes only the rows that it holds. */
  lemma OtherRows(cfg: Config, w: World, pid: int, r: int)
    requires pid in w.work && w.work[pid].Deciding? && w.work[pid].phase.Finished?
    ensures var table := Next(cfg, w, CommitDecision(pid)).db.approvals;
      && (r in table <==> r in w.db.approvals)
      && (r in table && r !in Held(w, pid) ==> table[r] == w.db.approvals[r])
      && (r in table && r in Held(w, pid) ==> table[r].status != Pending)
  {
  }

  /** The rows of the tail that the commit leaves alone are still as inserted, and any other row
      still pending was there at the start. */
  lemma UndecidedRows(cfg: Config, db0: Db, w: World, o: Order, pid: int)
    requires OrderInv(cfg, db0, w, o)
    requires pid in w.work && w.work[pid].Deciding? && w.work[pid].phase.Finished?
    ensures var w' := Next(cfg, w, CommitDecision(pid));
      var o' := Order([], Pick(o.tail, Held(w, pid), false));
      && TailOk(w', o')
      && OldPending(db0, w'.db.approvals, Rows(o'.tail).Keys)
  {
    PickRows(o.tail, Held(w, pid), false);
    var w' := Next(cfg, w, CommitDecision(pid));
    var rest := Rows(Pick(o.tail, Held(w, pid), false));
    forall r | r in rest
      ensures r in w'.db.approvals && w'.db.approvals[r] == rest[r]
    {
      OtherRows(cfg, w, pid, r);
    }
    forall r | r in w'.db.approvals && r !in rest && w'.db.approvals[r].status == Pending
      ensures r in db0.approvals
    {
      OtherRows(cfg, w, pid, r);
    }
  }

  lemma SameTransactions(o: Order, rows: set<int>, tx: Tx)
    requires OnlyInserts(o.tail)
    ensures multiset(o.front + Pick(o.tail, rows, true) + [tx] + Pick(o.tail, rows, false))
         == multiset(o.front + o.tail) + multiset{tx}
  {
    PickAll(o.tail, rows);
  }

  /** Where the decision matches exactly its held rows, it does alone what its commit does. */
  lemma CommitEffect(cfg: Config, w: World, pid: int, others: set<int>)
    requires LockInv(cfg, w)
    requires pid in w.work && w.work[pid].Deciding? && w.work[pid].phase.Finished?
    requires MatchingRows(w.db.approvals - others, w.work[pid].req) == Held(w, pid)
    ensures var after := Next(cfg, w, CommitDecision(pid)).db;
      RunTx(cfg.pol, Db(w.db.spds, w.db.approvals - others), Decide(w.work[pid].req))
        == Some(Db(after.spds, after.approvals - others))
  {
    var d := w.work[pid].req;
    assert WorkOk(cfg, w, pid);
    assert d.spd in w.spdLock ==> SpdLockOk(cfg, w, d.spd);
    var after := Next(cfg, w, CommitDecision(pid)).db;
    assert MarkRows(w.db.approvals - others, Held(w, pid), d) == after.approvals - others;
  }

  lemma QuietStep(cfg: Config, w: World, step: Step)
    ensures Next(cfg, w, step).log == w.log ==> Next(cfg, w, step).db == w.db
  {
    assert forall tx :: w.log + [tx] != w.log;
  }

  lemma SilentStep(cfg: Config, w: World, step: Step)
    requires !step.CreateSpd? && !step.CommitSubmit? && !step.Deliver? && !step.CommitDecision?
    ensures Next(cfg, w, step).log == w.log && Next(cfg, w, step).db == w.db
  {
  }

  lemma SameOrder(cfg: Config, db0: Db, w: World, w': World, o: Order)
    requires OrderInv(cfg, db0, w, o) && w'.log == w.log && w'.db == w.db
    ensures OrderInv(cfg, db0, w', o)
  {
    assert Core(w', o) == Core(w, o);
  }

  lemma OrderCreate(cfg: Config, db0: Db, w: World, o: Order, step: Step) returns (o': Order)
    requires OrderInv(cfg, db0, w, o) && step.CreateSpd? && Next(cfg, w, step).log != w.log
    ensures OrderInv(cfg, db0, Next(cfg, w, step), o')
  {
    var tx := Create(step.id, step.unit, step.creator, step.number, step.known);
    AppendToFront(cfg, db0, w, o, Next(cfg, w, step), tx);
    o' := Order(o.front + [tx], o.tail);
  }

  /** What a delivery that inserts a row does. */
  lemma Delivered(cfg: Config, w: World, step: Step)
    requires step.Deliver? && Next(cfg, w, step).log != w.log
    ensures var w' := Next(cfg, w, step);
      && step.row !in w.db.approvals && w'.log == w.log + [Insert(step.row, step.spd, 1)]
      && w'.db == w.db.(approvals := w.db.approvals[step.row := PendingRow(step.spd, 1)])
  {
  }

  lemma OrderDeliver(cfg: Config, db0: Db, w: World, o: Order, step: Step) returns (o': Order)
    requires OrderInv(cfg, db0, w, o) && step.Deliver? && Next(cfg, w, step).log != w.log
    ensures OrderInv(cfg, db0, Next(cfg, w, step), o')
  {
    var tx := Insert(step.row, step.spd, 1);
    Delivered(cfg, w, step);
    AppendInsert(cfg, db0, w, o, Next(cfg, w, step), tx);
    o' := Order(o.front, o.tail + [tx]);
  }

  lemma OrderDecide(cfg: Config, db0: Db, w: World, o: Order, pid: int) returns (o': Order)
    requires LockInv(cfg, w) && CoverInv(db0, w) && OrderInv(cfg, db0, w, o)
    requires Next(cfg, w, CommitDecision(pid)).log != w.log
    ensures OrderInv(cfg, db0, Next(cfg, w, CommitDecision(pid)), o')
  {
    AppendDecision(cfg, db0, w, o, pid);
    o' := Order(o.front + Pick(o.tail, Held(w, pid), true) + [Decide(w.work[pid].req)],
                Pick(o.tail, Held(w, pid), false));
  }

  lemma OrderSubmit(cfg: Config, db0: Db, w: World, o: Order, pid: int) returns (o': Order)
    requires LockInv(cfg, w) && OrderInv(cfg, db0, w, o)
    requires Next(cfg, w, CommitSubmit(pid)).log != w.log
    ensures OrderInv(cfg, db0, Next(cfg, w, CommitSubmit(pid)), o')
  {
    var t := w.work[pid];
    assert WorkOk(cfg, w, pid);
    assert SpdLockOk(cfg, w, t.spd);
    AppendToFront(cfg, db0, w, o, Next(cfg, w, CommitSubmit(pid)), Submit(t.spd, t.caller));
    o' := Order(o.front + [Submit(t.spd, t.caller)], o.tail);
  }

  /** One step of a run keeps a serial order for what has committed. */
  lemma OrderStep(cfg: Config, db0: Db, w: World, o: Order, step: Step) returns (o': Order)
    requires LockInv(cfg, w) && CoverInv(db0, w) && OrderInv(cfg, db0, w, o)
    ensures OrderInv(cfg, db0, Next(cfg, w, step), o')
  {
    if Next(cfg, w, step).log == w.log {
      QuietStep(cfg, w, step);
      SameOrder(cfg, db0, w, Next(cfg, w, step), o);
      return o;
    }
    match step
    case CreateSpd(_, _, _, _, _) => o' := OrderCreate(cfg, db0, w, o, step);
    case CommitSubmit(pid) => o' := OrderSubmit(cfg, db0, w, o, pid);
    case Deliver(_, _, _) => o' := OrderDeliver(cfg, db0, w, o, step);
    case CommitDecision(pid) => o' := OrderDecide(cfg, db0, w, o, pid);
    case _ =>
      SilentStep(cfg, w, step);
      assert false;
  }

  lemma {:induction false} OrderRun(cfg: Config, db0: Db, steps: seq<Step>) returns (o: Order)
    requires ForeignKey(db0)
    ensures var w := Run(cfg, Start(db0), steps);
      && OrderInv(cfg, db0, w, o) && CoverInv(db0, w)
      && forall r :: r in db0.approvals ==> r in w.db.approvals
  {
    if steps == [] {
      o := Order([], []);
      assert db0.approvals - Rows([]).Keys == db0.approvals;
    } else {
      var init, last := steps[..|steps| - 1], steps[|steps| - 1];
      var o1 := OrderRun(cfg, db0, init);
      LockInvRun(cfg, db0, init);
      o := OrderStep(cfg, db0, Run(cfg, Start(db0), init), o1, last);
      CoverStep(cfg, db0, Run(cfg, Start(db0), init), last);
    }
  }

  /** Serializability: from any database, after any run, running the committed transactions one at
      a time in some order succeeds and gives the committed database. The order has the same
      transactions as the commit log and keeps the log's order of all that are not inserts. */
  lemma Serializable(cfg: Config, db0: Db, steps: seq<Step>)
    requires ForeignKey(db0)
    ensures exists order :: IsSerialOrder(cfg, db0, Run(cfg, Start(db0), steps), order)
  {
    var w := Run(cfg, Start(db0), steps);
    var o := OrderRun(cfg, db0, steps);
    LockInvRun(cfg, db0, steps);
    CloseOrder(cfg, db0, w, o);
  }

  predicate IsSerialOrder(cfg: Config, db0: Db, w: World, order: seq<Tx>) {
    && multiset(order) == multiset(w.log)
    && NonInserts(order) == NonInserts(w.log)
    && RunAll(cfg.pol, db0, order) == Some(w.db)
  }

  lemma CloseOrder(cfg: Config, db0: Db, w: World, o: Order)
    requires ForeignKey(w.db) && OrderInv(cfg, db0, w, o)
    ensures IsSerialOrder(cfg, db0, w, o.front + o.tail)
  {
    InsertsRun(cfg.pol, Core(w, o), o.tail);
    RunAllAppend(cfg.pol, db0, o.front, o.tail);
    NonInsertsAppend(o.front, o.tail);
    OnlyInsertsNone(o.tail);
    RestoreRows(w.db.approvals, Rows(o.tail), Rows(o.tail).Keys, {});
    assert w.db.approvals - {} == w.db.approvals;
  }
}
