/** Transactions that run uninterrupted, and two runs built from them that show which stronger
    claims about the workflow fail, and exactly when. */
module SpdScenarios {
  import opened Wrappers
  import opened Sets
  import opened SpdTables
  import opened SpdProtocol
  import opened SpdSafety

  predicate Quiet(w: World) {
    w.work == map[] && w.rowLock == map[] && w.spdLock == map[]
  }

  function Visits(pid: int, rows: seq<int>): seq<Step> {
    seq(|rows|, i requires 0 <= i < |rows| => Visit(pid, rows[i]))
  }

  /** All steps of one decision whose scan meets the matching rows in the order `rows`. */
  function DecisionSteps(pid: int, d: Decision, rows: seq<int>): seq<Step> {
    [BeginDecision(pid, d), Scan(pid)] + Visits(pid, rows) + [EndScan(pid), UpdateSpd(pid), CommitDecision(pid)]
  }

  predicate Enumerates(rows: seq<int>, s: set<int>) {
    && (forall i :: 0 <= i < |rows| ==> rows[i] in s)
    && (forall r :: r in s ==> r in rows)
    && (forall i, j :: 0 <= i < j < |rows| ==> rows[i] != rows[j])
  }

  /** In the middle of an uninterrupted scan: the visited rows are held, the others are to do. */
  ghost predicate MidScan(w0: World, w: World, pid: int, d: Decision, rows: seq<int>, n: nat)
    requires n <= |rows|
  {
    && w == w0.(work := map[pid := Deciding(d, Scanning(set r | r in rows[n..]))], rowLock := w.rowLock)
    && (forall r :: r in w.rowLock <==> r in rows[..n])
    && (forall r :: r in w.rowLock ==> w.rowLock[r] == pid)
  }

  lemma VisitOne(cfg: Config, w0: World, w: World, pid: int, d: Decision, rows: seq<int>, n: nat)
    requires Quiet(w0) && n < |rows| && Enumerates(rows, MatchingRows(w0.db.approvals, d))
    requires MidScan(w0, w, pid, d, rows, n)
    ensures MidScan(w0, Next(cfg, w, Visit(pid, rows[n])), pid, d, rows, n + 1)
  {
    assert rows[n] in w.work[pid].phase.todo;
    var m := n + 1;
    assert rows[..m] == rows[..n] + [rows[n]];
    assert rows[n..] == [rows[n]] + rows[m..];
    assert w.work[pid].phase.todo - {rows[n]} == set r | r in rows[m..];
  }

  lemma {:induction false} VisitAll(cfg: Config, w0: World, w: World, pid: int, d: Decision, rows: seq<int>, n: nat)
    requires Quiet(w0) && n <= |rows| && Enumerates(rows, MatchingRows(w0.db.approvals, d))
    requires MidScan(w0, w, pid, d, rows, 0)
    ensures MidScan(w0, Run(cfg, w, Visits(pid, rows[..n])), pid, d, rows, n)
  {
    if n > 0 {
      VisitAll(cfg, w0, w, pid, d, rows, n - 1);
      var steps := Visits(pid, rows[..n]);
      assert steps[..n - 1] == Visits(pid, rows[..n - 1]);
      VisitOne(cfg, w0, Run(cfg, w, steps[..n - 1]), pid, d, rows, n - 1);
      assert steps[n - 1] == Visit(pid, rows[n - 1]);
    }
  }

  lemma RunFirst(cfg: Config, w: World, step: Step, rest: seq<Step>)
    ensures Run(cfg, w, [step] + rest) == Run(cfg, Next(cfg, w, step), rest)
  {
    RunAppend(cfg, w, [step], rest);
    assert [step][..0] == [];
  }

  lemma RunThree(cfg: Config, w: World, a: Step, b: Step, c: Step)
    ensures Run(cfg, w, [a, b, c]) == Next(cfg, Next(cfg, Next(cfg, w, a), b), c)
  {
    assert [a, b, c][..2] == [a, b] && [a, b][..1] == [a] && [a][..0] == [];
    assert Run(cfg, w, [a]) == Next(cfg, w, a);
    assert Run(cfg, w, [a, b]) == Next(cfg, Next(cfg, w, a), b);
  }

  /** An uninterrupted decision, in whatever order it meets its rows, is the repository's Approve or
      Reject: it commits exactly what the transaction does alone, or rolls back. */
  lemma DecisionAlone(cfg: Config, w: World, pid: int, d: Decision, rows: seq<int>)
    requires Quiet(w) && d.caller.role in {"SUPER_ADMIN", "APPROVER", "FINANCE", "BUDGET_ADMIN"}
    requires Enumerates(rows, MatchingRows(w.db.approvals, d))
    ensures Run(cfg, w, DecisionSteps(pid, d, rows)) == Commit(cfg, w, Decide(d))
  {
    var todo := MatchingRows(w.db.approvals, d);
    var w1 := w.(work := map[pid := Deciding(d, Scanning(todo))]);
    var ending := [EndScan(pid), UpdateSpd(pid), CommitDecision(pid)];
    assert DecisionSteps(pid, d, rows) == [BeginDecision(pid, d)] + ([Scan(pid)] + (Visits(pid, rows) + ending));
    RunFirst(cfg, w, BeginDecision(pid, d), [Scan(pid)] + (Visits(pid, rows) + ending));
    RunFirst(cfg, Next(cfg, w, BeginDecision(pid, d)), Scan(pid), Visits(pid, rows) + ending);
    assert Next(cfg, Next(cfg, w, BeginDecision(pid, d)), Scan(pid)) == w1;
    SameSet(todo, set r | r in rows[0..]);
    VisitAll(cfg, w, w1, pid, d, rows, |rows|);
    assert rows[..|rows|] == rows;
    RunAppend(cfg, w1, Visits(pid, rows), ending);
    var w2 := Run(cfg, w1, Visits(pid, rows));
    SameSet({}, set r | r in rows[|rows|..]);
    EndAlone(cfg, w, w2, pid, d);
  }

  /** In any other role the handler refuses before it starts a transaction. */
  lemma DecisionRefused(cfg: Config, w: World, pid: int, d: Decision)
    requires d.caller.role !in {"SUPER_ADMIN", "APPROVER", "FINANCE", "BUDGET_ADMIN"}
    ensures Next(cfg, w, BeginDecision(pid, d)) == w
  {
  }

  lemma AllReleased(locks: map<int, int>, pid: int)
    requires forall r :: r in locks ==> locks[r] == pid
    ensures Release(locks, pid) == map[]
  {
    SameMap(Release(locks, pid), map[]);
  }

  lemma EndAlone(cfg: Config, w: World, w2: World, pid: int, d: Decision)
    requires Quiet(w)
    requires w2 == w.(work := map[pid := Deciding(d, Scanning({}))], rowLock := w2.rowLock)
    requires forall r :: r in w2.rowLock <==> r in MatchingRows(w.db.approvals, d)
    requires forall r :: r in w2.rowLock ==> w2.rowLock[r] == pid
    ensures Run(cfg, w2, [EndScan(pid), UpdateSpd(pid), CommitDecision(pid)]) == Commit(cfg, w, Decide(d))
  {
    var held := MatchingRows(w.db.approvals, d);
    SameSet(Held(w2, pid), held);
    RunThree(cfg, w2, EndScan(pid), UpdateSpd(pid), CommitDecision(pid));
    AllReleased(w2.rowLock, pid);
    SameMap(w2.work - {pid}, map[]);
    if held == {} {
      NoRowEnds(cfg, w, w2, pid);
    } else {
      MarkedEnds(cfg, w, w2, pid, d);
    }
  }

  /** Without a row the transaction is rolled back at once. */
  lemma NoRowEnds(cfg: Config, w: World, w2: World, pid: int)
    requires Quiet(w) && pid in w2.work && w2.work[pid].Deciding? && w2.work[pid].phase == Scanning({})
    requires w2 == w.(work := w2.work, rowLock := w2.rowLock) && Held(w2, pid) == {}
    requires w2.work - {pid} == map[] && Release(w2.rowLock, pid) == map[]
    ensures Next(cfg, Next(cfg, Next(cfg, w2, EndScan(pid)), UpdateSpd(pid)), CommitDecision(pid)) == w
  {
    assert Release(w2.spdLock, pid) == map[];
    assert Next(cfg, w2, EndScan(pid)) == w;
  }

  lemma SecondUpdate(cfg: Config, w: World, w3: World, pid: int, d: Decision)
    requires Quiet(w) && w3 == w.(work := map[pid := Deciding(d, Marked)], rowLock := w3.rowLock)
    ensures var w4 := Next(cfg, w3, UpdateSpd(pid));
      && w4 == w.(work := map[pid := Deciding(d, Finished)], rowLock := w3.rowLock, spdLock := w4.spdLock)
      && w4.spdLock == if Reaches(cfg.pol, w.db.spds, d) then map[d.spd := pid] else map[]
  {
  }

  lemma MarkedEnds(cfg: Config, w: World, w2: World, pid: int, d: Decision)
    requires Quiet(w) && w2 == w.(work := map[pid := Deciding(d, Scanning({}))], rowLock := w2.rowLock)
    requires Held(w2, pid) == MatchingRows(w.db.approvals, d) && Held(w2, pid) != {}
    requires Release(w2.rowLock, pid) == map[]
    ensures Next(cfg, Next(cfg, Next(cfg, w2, EndScan(pid)), UpdateSpd(pid)), CommitDecision(pid)) == Commit(cfg, w, Decide(d))
  {
    var w3 := Next(cfg, w2, EndScan(pid));
    SecondUpdate(cfg, w, w3, pid, d);
    var w4 := Next(cfg, w3, UpdateSpd(pid));
    SameMap(w4.work - {pid}, map[]);
    AllReleased(w4.spdLock, pid);
    assert Held(w4, pid) == Held(w2, pid);
  }

  function SubmitSteps(pid: int, spd: int, c: Caller): seq<Step> {
    [BeginSubmit(pid, spd, c), LockSubmit(pid), CommitSubmit(pid)]
  }

  /** An uninterrupted submit is the repository's SubmitSPD, and leaves one event to publish. */
  lemma SubmitAlone(cfg: Config, w: World, pid: int, spd: int, c: Caller)
    requires Quiet(w)
    ensures var after := Run(cfg, w, SubmitSteps(pid, spd, c));
      after == if RunTx(cfg.pol, w.db, Submit(spd, c)).None? then w
               else Commit(cfg, w, Submit(spd, c)).(unpublished := w.unpublished + {spd})
  {
    RunThree(cfg, w, BeginSubmit(pid, spd, c), LockSubmit(pid), CommitSubmit(pid));
    var w1 := Next(cfg, w, BeginSubmit(pid, spd, c));
    var w2 := Next(cfg, w1, LockSubmit(pid));
    assert Release(w2.spdLock, pid) == map[];
  }

  const ADMIN := Caller(1, "SUPER_ADMIN")
  const APPROVER := Caller(2, "APPROVER")

  /** SPD 1 is created, submitted and published, and consumer 0 has inserted row 10. */
  const SETUP: seq<Step> :=
    [CreateSpd(1, 1, ADMIN, "A", true)] + SubmitSteps(0, 1, ADMIN) + [Publish(1)] + [Deliver(1, 0, 10)]

  lemma SetupState(cfg: Config)
    requires cfg.consumers >= 1
    ensures var w := Reached(cfg, SETUP);
      && Quiet(w)
      && w.db == Db(map[1 := Spd(Submitted, 1, 1, "A", false)], map[10 := PendingRow(1, 1)])
      && forall c :: 1 <= c < cfg.consumers ==> (1, c) in w.copies
  {
    var w0 := Start(EMPTY);
    var w1 := Next(cfg, w0, CreateSpd(1, 1, ADMIN, "A", true));
    assert SETUP == [CreateSpd(1, 1, ADMIN, "A", true)] + (SubmitSteps(0, 1, ADMIN) + ([Publish(1)] + [Deliver(1, 0, 10)]));
    RunFirst(cfg, w0, CreateSpd(1, 1, ADMIN, "A", true), SubmitSteps(0, 1, ADMIN) + ([Publish(1)] + [Deliver(1, 0, 10)]));
    RunAppend(cfg, w1, SubmitSteps(0, 1, ADMIN), [Publish(1)] + [Deliver(1, 0, 10)]);
    SubmitAlone(cfg, w1, 0, 1, ADMIN);
    SetupDelivery(cfg, Run(cfg, w1, SubmitSteps(0, 1, ADMIN)));
  }

  lemma Published(cfg: Config, w: World)
    requires 1 in w.unpublished
    ensures var w1 := Next(cfg, w, Publish(1));
      && w1 == w.(unpublished := w1.unpublished, copies := w1.copies)
      && forall c :: 0 <= c < cfg.consumers ==> (1, c) in w1.copies
  {
    assert forall c :: 0 <= c < cfg.consumers ==> (1, c) in Copies(1, cfg.consumers);
  }

  lemma FirstDelivery(cfg: Config, w: World)
    requires (1, 0) in w.copies && 1 in w.db.spds && w.db.approvals == map[]
    ensures var w' := Next(cfg, w, Deliver(1, 0, 10));
      && w' == w.(db := Db(w.db.spds, map[10 := PendingRow(1, 1)]), copies := w.copies - {(1, 0)}, log := w'.log)
  {
  }

  lemma SetupDelivery(cfg: Config, w: World)
    requires cfg.consumers >= 1
    requires Quiet(w) && 1 in w.unpublished
    requires 1 in w.db.spds && w.db.approvals == map[]
    ensures var w' := Run(cfg, w, [Publish(1)] + [Deliver(1, 0, 10)]);
      && Quiet(w') && w'.db == Db(w.db.spds, map[10 := PendingRow(1, 1)])
      && forall c :: 1 <= c < cfg.consumers ==> (1, c) in w'.copies
  {
    var w1 := Next(cfg, w, Publish(1));
    RunFirst(cfg, w, Publish(1), [Deliver(1, 0, 10)]);
    RunFirst(cfg, w1, Deliver(1, 0, 10), []);
    assert Run(cfg, w, [Publish(1)] + [Deliver(1, 0, 10)]) == Next(cfg, w1, Deliver(1, 0, 10));
    Published(cfg, w);
    FirstDelivery(cfg, w1);
  }

  function DecisionBy(c: Caller, v: Verdict): Decision {
    Decision(1, v, c, None, 0)
  }

  /** One decision after another on SPD 1, each by the administrator on its own row. */
  lemma DecideOne(cfg: Config, steps: seq<Step>, row: int, v: Verdict) returns (more: seq<Step>)
    requires var w := Reached(cfg, steps);
      Quiet(w) && MatchingRows(w.db.approvals, DecisionBy(ADMIN, v)) == {row}
      && 1 in w.db.spds && !w.db.spds[1].deleted
    ensures var w, w' := Reached(cfg, steps), Reached(cfg, steps + more);
      && Quiet(w') && w'.copies == w.copies
      && w'.db == Db(SetStatus(w.db.spds, 1, StatusOf(v)), MarkRows(w.db.approvals, {row}, DecisionBy(ADMIN, v)))
  {
    more := DecisionSteps(0, DecisionBy(ADMIN, v), [row]);
    DecisionAlone(cfg, Reached(cfg, steps), 0, DecisionBy(ADMIN, v), [row]);
    RunAppend(cfg, Start(EMPTY), steps, more);
  }

  /** With two consumers, the second copy arrives after the approval and is then rejected. */
  lemma ApprovedThenRejected(cfg: Config) returns (steps: seq<Step>, more: seq<Step>)
    requires cfg.consumers >= 2
    ensures 1 in Reached(cfg, steps).db.spds && Reached(cfg, steps).db.spds[1].status == Approved
    ensures 1 in Reached(cfg, steps + more).db.spds && Reached(cfg, steps + more).db.spds[1].status == Rejected
  {
    SetupState(cfg);
    SameSet(MatchingRows(Reached(cfg, SETUP).db.approvals, DecisionBy(ADMIN, Approve)), {10});
    var approve := DecideOne(cfg, SETUP, 10, Approve);
    steps := SETUP + approve;
    var late := [Deliver(1, 1, 11)];
    RunAppend(cfg, Start(EMPTY), steps, late);
    RunFirst(cfg, Reached(cfg, steps), Deliver(1, 1, 11), []);
    SameSet(MatchingRows(Reached(cfg, steps + late).db.approvals, DecisionBy(ADMIN, Reject)), {11});
    var reject := DecideOne(cfg, steps + late, 11, Reject);
    more := late + reject;
    assert steps + more == steps + late + reject;
  }

  ghost predicate VerdictPermanent(cfg: Config) {
    forall steps, more, s ::
      s in Reached(cfg, steps).db.spds && Reached(cfg, steps).db.spds[s].status in {Approved, Rejected} ==>
        && s in Reached(cfg, steps + more).db.spds
        && Reached(cfg, steps + more).db.spds[s].status == Reached(cfg, steps).db.spds[s].status
  }

  /** A verdict is permanent in every run exactly when at most one consumer subscribes. */
  lemma PermanentIffOneConsumer(cfg: Config)
    ensures VerdictPermanent(cfg) <==> cfg.consumers <= 1
  {
    if cfg.consumers >= 2 {
      var steps, more := ApprovedThenRejected(cfg);
    } else {
      forall steps, more, s |
        s in Reached(cfg, steps).db.spds && Reached(cfg, steps).db.spds[s].status in {Approved, Rejected}
        ensures s in Reached(cfg, steps + more).db.spds
        ensures Reached(cfg, steps + more).db.spds[s].status == Reached(cfg, steps).db.spds[s].status
      {
        HistoryShape(cfg, steps, s);
        HistoryShape(cfg, steps + more, s);
        HistoryGrows(cfg, steps, more, s);
        OneVerdict(cfg, steps + more, s);
      }
    }
  }

  ghost predicate StatusShowsDecisions(cfg: Config) {
    forall steps, s :: DecidedRowsOf(Reached(cfg, steps).db.approvals, s) != {} ==>
      s in Reached(cfg, steps).db.spds && Reached(cfg, steps).db.spds[s].status in {Approved, Rejected}
  }

  /** Under the row policies an approver who did not create the SPD decides the row while the SPD
      stays SUBMITTED, without an error. */
  lemma DecisionHidden(cfg: Config)
    requires cfg.pol.applied && cfg.consumers >= 1
    ensures exists steps ::
      && DecidedRowsOf(Reached(cfg, steps).db.approvals, 1) != {}
      && 1 in Reached(cfg, steps).db.spds && Reached(cfg, steps).db.spds[1].status == Submitted
  {
    SetupState(cfg);
    var w := Reached(cfg, SETUP);
    var d := DecisionBy(APPROVER, Approve);
    assert MatchingRows(w.db.approvals, d) == {10};
    DecisionAlone(cfg, w, 0, d, [10]);
    RunAppend(cfg, Start(EMPTY), SETUP, DecisionSteps(0, d, [10]));
    var steps := SETUP + DecisionSteps(0, d, [10]);
    assert 10 in DecidedRowsOf(Reached(cfg, steps).db.approvals, 1);
  }

  /** Every decision shows in the SPD's status, in every run, exactly when the row policies do not
      bind the connection (or nobody consumes the events). */
  lemma ShowsIffPoliciesBypassed(cfg: Config)
    ensures StatusShowsDecisions(cfg) <==> !cfg.pol.applied || cfg.consumers == 0
  {
    if cfg.pol.applied && cfg.consumers >= 1 {
      DecisionHidden(cfg);
    } else {
      forall steps, s | DecidedRowsOf(Reached(cfg, steps).db.approvals, s) != {}
        ensures s in Reached(cfg, steps).db.spds && Reached(cfg, steps).db.spds[s].status in {Approved, Rejected}
      {
        SafeRun(cfg, steps);
        var w := Reached(cfg, steps);
        assert SpdSafe(cfg, w, s);
        SubsetSize(DecidedRowsOf(w.db.approvals, s), RowsOf(w.db.approvals, s));
      }
    }
  }
}
