/** What every reachable state of the workflow keeps when all SPDs are created by the application:
    how many approval rows and decisions one SPD can have, what its status says about its rows,
    and how its status can move. */
module SpdSafety {
  import opened Wrappers
  import opened Sets
  import opened SpdTables
  import opened SpdProtocol

  const EMPTY := Db(map[], map[])

  /** The state that a run of the empty system reaches. */
  function Reached(cfg: Config, steps: seq<Step>): World {
    Run(cfg, Start(EMPTY), steps)
  }

  function RowsOf(table: map<int, Approval>, s: int): set<int> {
    set r | r in table && table[r].spd == s
  }

  function DecidedRowsOf(table: map<int, Approval>, s: int): set<int> {
    set r | r in table && table[r].spd == s && table[r].status.Decided?
  }

  function CopiesOf(w: World, s: int): set<(int, int)> {
    set p | p in w.copies && p.0 == s
  }

  /** Committed decisions on one SPD. */
  function Decisions(log: seq<Tx>, s: int): nat {
    if log == [] then 0
    else
      var last := log[|log| - 1];
      Decisions(log[..|log| - 1], s) + if last.Decide? && last.decision.spd == s then 1 else 0
  }

  predicate HasRow(db: Db, s: int, v: Verdict) {
    exists r :: r in db.approvals && db.approvals[r].spd == s && db.approvals[r].status == Decided(v)
  }

  /** Before submission there is nothing; between submission and publication there is neither copy
      nor row; rows and copies under way never exceed the number of consumers; every decision has
      decided a row of its own; a decided status is backed by a row decided that way; and where the
      row policies do not apply, a decided row shows in the status. */
  predicate SpdSafe(cfg: Config, w: World, s: int) {
    var rows, copies := RowsOf(w.db.approvals, s), CopiesOf(w, s);
    && (s !in w.db.spds || w.db.spds[s].status == Draft ==> rows == {} && copies == {} && s !in w.unpublished)
    && (s in w.unpublished ==> rows == {} && copies == {})
    && |rows| + |copies| <= cfg.consumers
    && Decisions(w.log, s) <= |DecidedRowsOf(w.db.approvals, s)|
    && (s in w.db.spds ==> !w.db.spds[s].deleted)
    && (!cfg.pol.applied && DecidedRowsOf(w.db.approvals, s) != {} ==>
          s in w.db.spds && w.db.spds[s].status in {Approved, Rejected})
    && (s in w.db.spds ==>
          match w.db.spds[s].status
          case Approved => HasRow(w.db, s, Approve)
          case Rejected => HasRow(w.db, s, Reject)
          case Cancelled => false
          case _ => true)
  }

  /** A row is pending exactly while it has no decider. */
  predicate RowSafe(a: Approval) {
    (a.status == Pending <==> a.decidedBy == None) && (a.status == Pending <==> a.decidedAt == None)
  }

  ghost predicate Safe(cfg: Config, w: World) {
    && LockInv(cfg, w)
    && (forall s :: SpdSafe(cfg, w, s))
    && (forall r :: r in w.db.approvals ==> RowSafe(w.db.approvals[r]))
  }

  lemma DecisionsAppend(log: seq<Tx>, tx: Tx, s: int)
    ensures Decisions(log + [tx], s) == Decisions(log, s) + if tx.Decide? && tx.decision.spd == s then 1 else 0
  {
    assert (log + [tx])[..|log|] == log;
  }

  /** A decided row never changes again, and no row is ever removed. */
  lemma DecidedRowStays(cfg: Config, w: World, step: Step, r: int)
    requires LockInv(cfg, w) && r in w.db.approvals && w.db.approvals[r].status.Decided?
    ensures r in Next(cfg, w, step).db.approvals
    ensures Next(cfg, w, step).db.approvals[r] == w.db.approvals[r]
  {
    assert r in w.rowLock ==> RowLockOk(w, r);
  }

  lemma InsertedRow(table: map<int, Approval>, row: int, spd: int, s: int)
    requires row !in table
    ensures var table' := table[row := PendingRow(spd, 1)];
      && RowsOf(table', s) == RowsOf(table, s) + (if s == spd then {row} else {})
      && DecidedRowsOf(table', s) == DecidedRowsOf(table, s)
  {
    var table' := table[row := PendingRow(spd, 1)];
    forall r
      ensures r in DecidedRowsOf(table', s) <==> r in DecidedRowsOf(table, s)
      ensures r in RowsOf(table', s) <==> r in RowsOf(table, s) || (s == spd && r == row)
    {
    }
  }

  lemma MarkedRows(table: map<int, Approval>, rows: set<int>, d: Decision, s: int)
    requires forall r :: r in rows ==> r in table && Matches(table[r], d)
    ensures var table' := MarkRows(table, rows, d);
      && RowsOf(table', s) == RowsOf(table, s)
      && DecidedRowsOf(table', s) == DecidedRowsOf(table, s) + (if s == d.spd then rows else {})
      && DecidedRowsOf(table, s) !! rows
  {
    var table' := MarkRows(table, rows, d);
    forall r
      ensures r in RowsOf(table', s) <==> r in RowsOf(table, s)
      ensures r in DecidedRowsOf(table', s) <==> r in DecidedRowsOf(table, s) || (s == d.spd && r in rows)
      ensures !(r in DecidedRowsOf(table, s) && r in rows)
    {
    }
  }

  /** Delivery turns one copy into one row, or loses it. */
  lemma SafeDeliver(cfg: Config, w: World, spd: int, c: int, row: int, s: int)
    requires SpdSafe(cfg, w, s)
    ensures SpdSafe(cfg, Next(cfg, w, Deliver(spd, c, row)), s)
  {
    if (spd, c) in w.copies {
      var w1 := w.(copies := w.copies - {(spd, c)});
      RemovedCopy(w, w1, spd, c, s);
      if spd != 0 && RunTx(cfg.pol, w.db, Insert(row, spd, 1)).Some? {
        InsertedRow(w.db.approvals, row, spd, s);
        DecisionsAppend(w.log, Insert(row, spd, 1), s);
        SafeInsert(cfg, w, w1, spd, row, s);
      }
    }
  }

  lemma SafeInsert(cfg: Config, w: World, w1: World, spd: int, row: int, s: int)
    requires SpdSafe(cfg, w, s)
    requires w1 == w.(copies := w1.copies)
    requires s == spd ==> CopiesOf(w, s) != {} && |CopiesOf(w1, s)| == |CopiesOf(w, s)| - 1
    requires s != spd ==> CopiesOf(w1, s) == CopiesOf(w, s)
    requires row !in w.db.approvals
    requires Decisions(w.log + [Insert(row, spd, 1)], s) == Decisions(w.log, s)
    ensures SpdSafe(cfg,
      w1.(db := w.db.(approvals := w.db.approvals[row := PendingRow(spd, 1)]), log := w.log + [Insert(row, spd, 1)]), s)
  {
    InsertedRow(w.db.approvals, row, spd, s);
    KeepsRow(w.db, w.db.(approvals := w.db.approvals[row := PendingRow(spd, 1)]), s);
    var w2 := w1.(db := w.db.(approvals := w.db.approvals[row := PendingRow(spd, 1)]), log := w.log + [Insert(row, spd, 1)]);
    assert CopiesOf(w2, s) == CopiesOf(w1, s);
  }

  lemma RemovedCopy(w: World, w': World, spd: int, c: int, s: int)
    requires (spd, c) in w.copies && w'.copies == w.copies - {(spd, c)}
    ensures CopiesOf(w', s) == CopiesOf(w, s) - {(spd, c)}
    ensures s == spd ==> (spd, c) in CopiesOf(w, s)
    ensures s != spd ==> CopiesOf(w', s) == CopiesOf(w, s)
  {
    forall p
      ensures p in CopiesOf(w', s) <==> p in CopiesOf(w, s) && p != (spd, c)
    {
    }
  }

  lemma SafePublish(cfg: Config, w: World, spd: int, s: int)
    requires SpdSafe(cfg, w, s)
    ensures SpdSafe(cfg, Next(cfg, w, Publish(spd)), s)
  {
    var w' := Next(cfg, w, Publish(spd));
    if spd in w.unpublished && s == spd {
      PublishedCopies(cfg, w, s);
    } else {
      assert CopiesOf(w', s) == CopiesOf(w, s);
    }
  }

  lemma PublishedCopies(cfg: Config, w: World, spd: int)
    requires spd in w.unpublished && CopiesOf(w, spd) == {}
    ensures |CopiesOf(Next(cfg, w, Publish(spd)), spd)| == cfg.consumers
  {
    var w' := Next(cfg, w, Publish(spd));
    forall p
      ensures p in CopiesOf(w', spd) <==> p in Copies(spd, cfg.consumers)
    {
      assert p !in CopiesOf(w, spd);
    }
    assert CopiesOf(w', spd) == Copies(spd, cfg.consumers);
  }

  lemma SafeCommitSubmit(cfg: Config, w: World, pid: int, s: int)
    requires LockInv(cfg, w) && SpdSafe(cfg, w, s)
    ensures SpdSafe(cfg, Next(cfg, w, CommitSubmit(pid)), s)
  {
    var w' := Next(cfg, w, CommitSubmit(pid));
    assert SpdSafe(cfg, w, s);
    if w'.log != w.log {
      var t := w.work[pid];
      assert WorkOk(cfg, w, pid) && SpdLockOk(cfg, w, t.spd);
      DecisionsAppend(w.log, Submit(t.spd, t.caller), s);
    }
  }

  /** A committed decision has decided at least one row that was pending before. */
  lemma DecisionCounts(cfg: Config, w: World, pid: int, s: int)
    requires LockInv(cfg, w)
    requires pid in w.work && w.work[pid].Deciding? && w.work[pid].phase.Finished?
    ensures var w' := Next(cfg, w, CommitDecision(pid));
      && RowsOf(w'.db.approvals, s) == RowsOf(w.db.approvals, s)
      && |DecidedRowsOf(w'.db.approvals, s)| - |DecidedRowsOf(w.db.approvals, s)| >= Decisions(w'.log, s) - Decisions(w.log, s)
      && (s != w.work[pid].req.spd ==> DecidedRowsOf(w'.db.approvals, s) == DecidedRowsOf(w.db.approvals, s))
  {
    var d, held, w' := w.work[pid].req, Held(w, pid), Next(cfg, w, CommitDecision(pid));
    assert WorkOk(cfg, w, pid);
    DecisionsAppend(w.log, Decide(d), s);
    HeldMatch(cfg, w, pid);
    MarkedRows(w.db.approvals, held, d, s);
  }

  lemma HeldMatch(cfg: Config, w: World, pid: int)
    requires LockInv(cfg, w) && pid in w.work && w.work[pid].Deciding?
    ensures forall r :: r in Held(w, pid) ==> r in w.db.approvals && Matches(w.db.approvals[r], w.work[pid].req)
  {
    forall r | r in Held(w, pid)
      ensures r in w.db.approvals && Matches(w.db.approvals[r], w.work[pid].req)
    {
      assert RowLockOk(w, r);
    }
  }

  lemma SafeCommitDecision(cfg: Config, w: World, pid: int, s: int)
    requires LockInv(cfg, w) && SpdSafe(cfg, w, s)
    requires pid in w.work && w.work[pid].Deciding? && w.work[pid].phase.Finished?
    ensures SpdSafe(cfg, Next(cfg, w, CommitDecision(pid)), s)
  {
    var d, held, w' := w.work[pid].req, Held(w, pid), Next(cfg, w, CommitDecision(pid));
    assert WorkOk(cfg, w, pid);
    DecisionCounts(cfg, w, pid, s);
    HeldMatch(cfg, w, pid);
    SomeMember(held);
    var r :| r in held;
    assert w'.db.approvals[r].spd == d.spd && w'.db.approvals[r].status == Decided(d.verdict);
    assert r in RowsOf(w.db.approvals, d.spd) && d.spd in w.db.spds;
    assert s == d.spd && !cfg.pol.applied ==> Reaches(cfg.pol, w.db.spds, d);
    KeepsRow(w.db, w'.db, s);
    assert CopiesOf(w', s) == CopiesOf(w, s);
  }

  lemma SafeCreate(cfg: Config, w: World, step: Step, s: int)
    requires SpdSafe(cfg, w, s) && step.CreateSpd?
    ensures SpdSafe(cfg, Next(cfg, w, step), s)
  {
    DecisionsAppend(w.log, Create(step.id, step.unit, step.creator, step.number, step.known), s);
    assert CopiesOf(Next(cfg, w, step), s) == CopiesOf(w, s);
  }

  /** Steps that commit nothing and only lose what was under way. */
  lemma SafeQuiet(cfg: Config, w: World, w': World, s: int)
    requires SpdSafe(cfg, w, s)
    requires w'.db == w.db && w'.log == w.log && w'.copies <= w.copies && w'.unpublished <= w.unpublished
    ensures SpdSafe(cfg, w', s)
  {
    SubsetSize(CopiesOf(w', s), CopiesOf(w, s));
  }

  lemma QuietSteps(cfg: Config, w: World, step: Step)
    requires !step.CreateSpd? && !step.CommitSubmit? && !step.Publish? && !step.Deliver? && !step.CommitDecision?
    ensures var w' := Next(cfg, w, step);
      w'.db == w.db && w'.log == w.log && w'.copies <= w.copies && w'.unpublished <= w.unpublished
  {
  }

  lemma SpdSafeStep(cfg: Config, w: World, step: Step, s: int)
    requires LockInv(cfg, w) && SpdSafe(cfg, w, s)
    ensures SpdSafe(cfg, Next(cfg, w, step), s)
  {
    match step
    case CreateSpd(_, _, _, _, _) => SafeCreate(cfg, w, step, s);
    case CommitSubmit(pid) => SafeCommitSubmit(cfg, w, pid, s);
    case Publish(spd) => SafePublish(cfg, w, spd, s);
    case Deliver(spd, c, row) => SafeDeliver(cfg, w, spd, c, row, s);
    case CommitDecision(pid) =>
      if pid in w.work && w.work[pid].Deciding? && w.work[pid].phase.Finished? {
        SafeCommitDecision(cfg, w, pid, s);
      }
    case _ =>
      QuietSteps(cfg, w, step);
      SafeQuiet(cfg, w, Next(cfg, w, step), s);
  }

  lemma SafeStep(cfg: Config, w: World, step: Step)
    requires Safe(cfg, w)
    ensures Safe(cfg, Next(cfg, w, step))
  {
    LockInvStep(cfg, w, step);
    forall s
      ensures SpdSafe(cfg, Next(cfg, w, step), s)
    {
      SpdSafeStep(cfg, w, step, s);
    }
    RowSafeStep(cfg, w, step);
  }

  lemma RowSafeStep(cfg: Config, w: World, step: Step)
    requires forall r :: r in w.db.approvals ==> RowSafe(w.db.approvals[r])
    ensures forall r :: r in Next(cfg, w, step).db.approvals ==> RowSafe(Next(cfg, w, step).db.approvals[r])
  {
  }

  lemma {:induction false} SafeRun(cfg: Config, steps: seq<Step>)
    ensures Safe(cfg, Reached(cfg, steps))
  {
    if steps == [] {
      var w := Start(EMPTY);
      forall s
        ensures SpdSafe(cfg, w, s)
      {
        assert RowsOf(w.db.approvals, s) == {} && CopiesOf(w, s) == {};
      }
    } else {
      SafeRun(cfg, steps[..|steps| - 1]);
      SafeStep(cfg, Reached(cfg, steps[..|steps| - 1]), steps[|steps| - 1]);
    }
  }

  lemma KeepsRow(db: Db, db': Db, s: int)
    requires forall r :: r in db.approvals && db.approvals[r].status.Decided? ==>
      r in db'.approvals && db'.approvals[r] == db.approvals[r]
    ensures HasRow(db, s, Approve) ==> HasRow(db', s, Approve)
    ensures HasRow(db, s, Reject) ==> HasRow(db', s, Reject)
  {
  }

  // ---- The invariants of every reachable state

  lemma ReachableStates(cfg: Config, steps: seq<Step>)
    ensures var w := Reached(cfg, steps);
      && (forall s :: s in w.db.spds && w.db.spds[s].status == Approved ==> HasRow(w.db, s, Approve))
      && (forall s :: s in w.db.spds && w.db.spds[s].status == Rejected ==> HasRow(w.db, s, Reject))
      && (forall r :: r in w.db.approvals ==>
            w.db.approvals[r].spd in w.db.spds && w.db.spds[w.db.approvals[r].spd].status != Draft)
      && (forall r :: r in w.db.approvals ==> RowSafe(w.db.approvals[r]))
  {
    var w := Reached(cfg, steps);
    SafeRun(cfg, steps);
    forall r | r in w.db.approvals
      ensures w.db.approvals[r].spd in w.db.spds && w.db.spds[w.db.approvals[r].spd].status != Draft
    {
      assert SpdSafe(cfg, w, w.db.approvals[r].spd);
      assert r in RowsOf(w.db.approvals, w.db.approvals[r].spd);
    }
    forall s | s in w.db.spds
      ensures w.db.spds[s].status == Approved ==> HasRow(w.db, s, Approve)
      ensures w.db.spds[s].status == Rejected ==> HasRow(w.db, s, Reject)
    {
      assert SpdSafe(cfg, w, s);
    }
  }

  /** With k consumers an SPD has at most k rows and copies together, and at most k decisions. */
  lemma AtMostOnePerConsumer(cfg: Config, steps: seq<Step>, s: int)
    ensures var w := Reached(cfg, steps);
      && |RowsOf(w.db.approvals, s)| + |CopiesOf(w, s)| <= cfg.consumers
      && Decisions(w.log, s) <= cfg.consumers
  {
    var w := Reached(cfg, steps);
    SafeRun(cfg, steps);
    assert SpdSafe(cfg, w, s);
    SubsetSize(DecidedRowsOf(w.db.approvals, s), RowsOf(w.db.approvals, s));
  }

  /** A decision, once committed, is never overwritten. */
  lemma {:induction false} DecidedForever(cfg: Config, steps: seq<Step>, more: seq<Step>, r: int)
    requires var table := Reached(cfg, steps).db.approvals; r in table && table[r].status.Decided?
    ensures var later := Reached(cfg, steps + more).db.approvals;
      r in later && later[r] == Reached(cfg, steps).db.approvals[r]
  {
    if more == [] {
      assert steps + more == steps;
    } else {
      var init := more[..|more| - 1];
      DecidedForever(cfg, steps, init, r);
      SafeRun(cfg, steps + init);
      DecidedRowStays(cfg, Reached(cfg, steps + init), more[|more| - 1], r);
      assert (steps + more)[..|steps + more| - 1] == steps + init;
    }
  }

  // ---- How the status of one SPD moves along a run

  /** The successive values of the status column of one SPD. */
  function History(cfg: Config, steps: seq<Step>, s: int): seq<Status> {
    var spds := Reached(cfg, steps).db.spds;
    if steps == [] then []
    else
      var h := History(cfg, steps[..|steps| - 1], s);
      if s !in spds || (h != [] && h[|h| - 1] == spds[s].status) then h else h + [spds[s].status]
  }

  /** DRAFT, then SUBMITTED, then verdicts, no more than there were decisions. */
  predicate HistoryOk(cfg: Config, w: World, h: seq<Status>, s: int) {
    && (h == [] <==> s !in w.db.spds)
    && (h != [] ==> h[0] == Draft && h[|h| - 1] == w.db.spds[s].status)
    && (|h| > 1 ==> h[1] == Submitted)
    && (forall i :: 2 <= i < |h| ==> h[i] in {Approved, Rejected})
    && |h| <= 2 + Decisions(w.log, s)
  }

  /** A step creates an SPD in DRAFT, submits one that is in DRAFT, decides one that is not, or
      leaves the status alone. */
  predicate Moves(w: World, w': World, s: int) {
    if s !in w.db.spds then s in w'.db.spds ==> w'.db.spds[s].status == Draft
    else
      && s in w'.db.spds
      && var before, after := w.db.spds[s].status, w'.db.spds[s].status;
        || after == before
        || (before == Draft && after == Submitted)
        || (before != Draft && after in {Approved, Rejected} && Decisions(w'.log, s) == Decisions(w.log, s) + 1)
  }

  lemma CreateMoves(cfg: Config, w: World, step: Step, s: int)
    requires step.CreateSpd?
    ensures Moves(w, Next(cfg, w, step), s)
  {
  }

  lemma SubmitMoves(cfg: Config, w: World, pid: int, s: int)
    requires LockInv(cfg, w) && Next(cfg, w, CommitSubmit(pid)).db.spds != w.db.spds
    ensures Moves(w, Next(cfg, w, CommitSubmit(pid)), s)
  {
    assert WorkOk(cfg, w, pid) && SpdLockOk(cfg, w, w.work[pid].spd);
  }

  lemma DecisionMoves(cfg: Config, w: World, pid: int, s: int)
    requires LockInv(cfg, w) && SpdSafe(cfg, w, s) && Next(cfg, w, CommitDecision(pid)).db.spds != w.db.spds
    ensures Moves(w, Next(cfg, w, CommitDecision(pid)), s)
  {
    var d := w.work[pid].req;
    DecisionsAppend(w.log, Decide(d), s);
    if d.spd == s {
      assert WorkOk(cfg, w, pid);
      HeldMatch(cfg, w, pid);
      SomeMember(Held(w, pid));
      var r :| r in Held(w, pid);
      assert r in RowsOf(w.db.approvals, d.spd);
    }
  }

  /** No other step touches the orders. */
  lemma OtherSteps(cfg: Config, w: World, step: Step)
    requires !step.CreateSpd? && !step.CommitSubmit? && !step.CommitDecision?
    ensures Next(cfg, w, step).db.spds == w.db.spds
  {
  }

  lemma StatusMoves(cfg: Config, w: World, step: Step, s: int)
    requires LockInv(cfg, w) && SpdSafe(cfg, w, s)
    requires Next(cfg, w, step).db.spds != w.db.spds
    ensures Moves(w, Next(cfg, w, step), s)
  {
    match step
    case CreateSpd(_, _, _, _, _) => CreateMoves(cfg, w, step, s);
    case CommitSubmit(pid) => SubmitMoves(cfg, w, pid, s);
    case CommitDecision(pid) => DecisionMoves(cfg, w, pid, s);
    case _ => OtherSteps(cfg, w, step);
  }

  lemma DecisionsGrow(cfg: Config, w: World, step: Step, s: int)
    ensures Decisions(Next(cfg, w, step).log, s) >= Decisions(w.log, s)
  {
    forall tx
      ensures Decisions(w.log + [tx], s) >= Decisions(w.log, s)
    {
      DecisionsAppend(w.log, tx, s);
    }
  }

  lemma HistoryStep(cfg: Config, w: World, w': World, h: seq<Status>, s: int)
    requires HistoryOk(cfg, w, h, s)
    requires Decisions(w'.log, s) >= Decisions(w.log, s)
    requires Moves(w, w', s)
    ensures HistoryOk(cfg, w',
      if s !in w'.db.spds || (h != [] && h[|h| - 1] == w'.db.spds[s].status) then h else h + [w'.db.spds[s].status], s)
  {
  }

  lemma {:induction false} HistoryShape(cfg: Config, steps: seq<Step>, s: int)
    ensures HistoryOk(cfg, Reached(cfg, steps), History(cfg, steps, s), s)
  {
    if steps != [] {
      var init, last := steps[..|steps| - 1], steps[|steps| - 1];
      HistoryShape(cfg, init, s);
      var w := Reached(cfg, init);
      var w' := Next(cfg, w, last);
      assert LockInv(cfg, w) && SpdSafe(cfg, w, s) by {
        SafeRun(cfg, init);
      }
      DecisionsGrow(cfg, w, last, s);
      if w'.db.spds != w.db.spds {
        StatusMoves(cfg, w, last, s);
      }
      HistoryStep(cfg, w, w', History(cfg, init, s), s);
    }
  }

  /** With one consumer the history is a prefix of DRAFT, SUBMITTED and a single verdict. */
  lemma OneVerdict(cfg: Config, steps: seq<Step>, s: int)
    requires cfg.consumers <= 1
    ensures var h := History(cfg, steps, s);
      h <= [Draft, Submitted, Approved] || h <= [Draft, Submitted, Rejected]
  {
    HistoryShape(cfg, steps, s);
    AtMostOnePerConsumer(cfg, steps, s);
  }

  lemma {:induction false} HistoryGrows(cfg: Config, steps: seq<Step>, more: seq<Step>, s: int)
    ensures History(cfg, steps, s) <= History(cfg, steps + more, s)
  {
    if more == [] {
      assert steps + more == steps;
    } else {
      HistoryGrows(cfg, steps, more[..|more| - 1], s);
      assert (steps + more)[..|steps + more| - 1] == steps + more[..|more| - 1];
    }
  }
}
