/** What the rows of reachable states say, in terms of the committed transactions: who created an order,
    who decided a row, when, and with which comment. */
module SpdDecisions {
  import opened Wrappers
  import opened Sets
  import opened SpdTables
  import opened SpdProtocol
  import opened SpdSafety

  /** The row is what decision `d` made of a pending row. */
  predicate DecidedAs(a: Approval, d: Decision) {
    && a.spd == d.spd && a.step == 1
    && a.status == Decided(d.verdict)
    && a.comment == d.comment
    && a.decidedBy == Some(d.caller.user)
    && a.decidedAt == Some(d.now)
    && (a.approver == None || a.approver == Some(d.caller.user))
  }

  /** The row is as the consumer inserted it for order `a.spd`. */
  predicate Untouched(a: Approval) {
    a == Approval(a.spd, 1, None, Pending, None, None, None)
  }

  predicate DecidedInLog(a: Approval, log: seq<Tx>) {
    exists i :: 0 <= i < |log| && log[i].Decide? && DecidedAs(a, log[i].decision)
  }

  predicate RowExplained(a: Approval, log: seq<Tx>) {
    Untouched(a) || DecidedInLog(a, log)
  }

  /** The decision has left a row. */
  predicate LeftRow(table: map<int, Approval>, d: Decision) {
    exists r :: r in table && DecidedAs(table[r], d)
  }

  /** The order is as its creation made it, but for its status. */
  predicate CreatedAs(s: int, o: Spd, tx: Tx) {
    tx.Create? && tx.id == s && tx.unit == o.unit && tx.creator.user == o.createdBy && tx.number == o.number
  }

  predicate CreatedInLog(s: int, o: Spd, log: seq<Tx>) {
    exists i :: 0 <= i < |log| && CreatedAs(s, o, log[i])
  }

  lemma ExplainedStays(a: Approval, log: seq<Tx>, more: seq<Tx>)
    requires RowExplained(a, log) && log <= more
    ensures RowExplained(a, more)
  {
    if i :| 0 <= i < |log| && log[i].Decide? && DecidedAs(a, log[i].decision) {
      assert more[i] == log[i];
    }
  }

  lemma CreatedStays(s: int, o: Spd, o': Spd, log: seq<Tx>, more: seq<Tx>)
    requires CreatedInLog(s, o, log) && log <= more
    requires o'.unit == o.unit && o'.createdBy == o.createdBy && o'.number == o.number
    ensures CreatedInLog(s, o', more)
  {
    var i :| 0 <= i < |log| && CreatedAs(s, o, log[i]);
    assert more[i] == log[i] && CreatedAs(s, o', more[i]);
  }

  lemma LogGrows(cfg: Config, w: World, step: Step)
    ensures w.log <= Next(cfg, w, step).log
  {
  }

  /** Where a row of the next state comes from. */
  lemma RowStep(cfg: Config, w: World, step: Step, r: int)
    requires LockInv(cfg, w) && r in Next(cfg, w, step).db.approvals
    requires r in w.db.approvals ==> RowExplained(w.db.approvals[r], w.log)
    requires forall q :: q in w.db.approvals && w.db.approvals[q].status == Pending ==> Untouched(w.db.approvals[q])
    ensures RowExplained(Next(cfg, w, step).db.approvals[r], Next(cfg, w, step).log)
  {
    var w' := Next(cfg, w, step);
    LogGrows(cfg, w, step);
    if r in w.db.approvals && w'.db.approvals[r] == w.db.approvals[r] {
      ExplainedStays(w.db.approvals[r], w.log, w'.log);
    } else if r in w.db.approvals {
      RowDecided(cfg, w, step, r);
    } else {
      NewRow(cfg, w, step, r);
    }
  }

  lemma NewRow(cfg: Config, w: World, step: Step, r: int)
    requires r !in w.db.approvals && r in Next(cfg, w, step).db.approvals
    ensures Untouched(Next(cfg, w, step).db.approvals[r])
  {
  }

  /** Only the commit of a decision that holds a row changes it. */
  lemma RowDecided(cfg: Config, w: World, step: Step, r: int)
    requires LockInv(cfg, w) && r in w.db.approvals && r in Next(cfg, w, step).db.approvals
    requires Next(cfg, w, step).db.approvals[r] != w.db.approvals[r]
    requires w.db.approvals[r].status == Pending ==> Untouched(w.db.approvals[r])
    ensures DecidedInLog(Next(cfg, w, step).db.approvals[r], Next(cfg, w, step).log)
  {
    var w' := Next(cfg, w, step);
    assert step.CommitDecision? && r in Held(w, step.pid);
    assert RowLockOk(w, r);
    assert w'.log[|w.log|] == Decide(w.work[step.pid].req);
    assert DecidedAs(w'.db.approvals[r], w'.log[|w.log|].decision);
  }

  /** A committed decision leaves at least one row. */
  lemma LeftNow(cfg: Config, w: World, pid: int)
    requires LockInv(cfg, w)
    requires forall q :: q in w.db.approvals && w.db.approvals[q].status == Pending ==> Untouched(w.db.approvals[q])
    requires Next(cfg, w, CommitDecision(pid)).log != w.log
    ensures LeftRow(Next(cfg, w, CommitDecision(pid)).db.approvals, w.work[pid].req)
  {
    assert WorkOk(cfg, w, pid);
    SomeMember(Held(w, pid));
    var r :| r in Held(w, pid);
    assert RowLockOk(w, r);
    assert DecidedAs(Next(cfg, w, CommitDecision(pid)).db.approvals[r], w.work[pid].req);
  }

  lemma LeftStays(cfg: Config, w: World, step: Step, d: Decision)
    requires LockInv(cfg, w) && LeftRow(w.db.approvals, d)
    ensures LeftRow(Next(cfg, w, step).db.approvals, d)
  {
    var r :| r in w.db.approvals && DecidedAs(w.db.approvals[r], d);
    DecidedRowStays(cfg, w, step, r);
  }

  predicate MayDecide(role: string) {
    role == "SUPER_ADMIN" || role == "APPROVER" || role == "FINANCE" || role == "BUDGET_ADMIN"
  }

  /** The facts about a world that the steps keep. */
  ghost predicate Explained(w: World) {
    && (forall r :: r in w.db.approvals ==> RowExplained(w.db.approvals[r], w.log))
    && (forall i :: 0 <= i < |w.log| && w.log[i].Decide? ==> LeftRow(w.db.approvals, w.log[i].decision))
    && (forall s :: s in w.db.spds ==> CreatedInLog(s, w.db.spds[s], w.log))
    && NumbersOk(w.db.spds)
    && (forall pid :: pid in w.work && w.work[pid].Deciding? ==> MayDecide(w.work[pid].req.caller.role))
    && (forall i :: 0 <= i < |w.log| && w.log[i].Decide? ==> MayDecide(w.log[i].decision.caller.role))
  }

  predicate NumbersOk(spds: map<int, Spd>) {
    && (forall s :: s in spds ==> |spds[s].number| <= 50)
    && (forall s, t :: s in spds && t in spds && spds[s].number == spds[t].number ==> s == t)
  }

  lemma PendingUntouched(w: World)
    requires forall r :: r in w.db.approvals ==> RowExplained(w.db.approvals[r], w.log)
    ensures forall q :: q in w.db.approvals && w.db.approvals[q].status == Pending ==> Untouched(w.db.approvals[q])
  {
  }

  lemma NumbersStep(cfg: Config, w: World, step: Step)
    requires NumbersOk(w.db.spds)
    ensures NumbersOk(Next(cfg, w, step).db.spds)
  {
  }

  lemma CreatedStep(cfg: Config, w: World, step: Step, s: int)
    requires s in Next(cfg, w, step).db.spds
    requires s in w.db.spds ==> CreatedInLog(s, w.db.spds[s], w.log)
    ensures CreatedInLog(s, Next(cfg, w, step).db.spds[s], Next(cfg, w, step).log)
  {
    var w' := Next(cfg, w, step);
    LogGrows(cfg, w, step);
    if s in w.db.spds {
      SameOrigin(cfg, w, step, s);
      CreatedStays(s, w.db.spds[s], w'.db.spds[s], w.log, w'.log);
    } else {
      CreatedNow(cfg, w, step, s);
    }
  }

  lemma SameOrigin(cfg: Config, w: World, step: Step, s: int)
    requires s in w.db.spds
    ensures var w' := Next(cfg, w, step);
      s in w'.db.spds && w'.db.spds[s].unit == w.db.spds[s].unit && w'.db.spds[s].createdBy == w.db.spds[s].createdBy
      && w'.db.spds[s].number == w.db.spds[s].number
  {
  }

  lemma CreatedNow(cfg: Config, w: World, step: Step, s: int)
    requires s !in w.db.spds && s in Next(cfg, w, step).db.spds
    ensures CreatedInLog(s, Next(cfg, w, step).db.spds[s], Next(cfg, w, step).log)
  {
    var w' := Next(cfg, w, step);
    assert step.CreateSpd? && w'.log == w.log + [Create(step.id, step.unit, step.creator, step.number, step.known)];
    assert CreatedAs(s, w'.db.spds[s], w'.log[|w.log|]);
  }

  lemma LogStep(cfg: Config, w: World, step: Step, i: nat)
    requires LockInv(cfg, w) && Explained(w)
    requires i < |Next(cfg, w, step).log| && Next(cfg, w, step).log[i].Decide?
    ensures LeftRow(Next(cfg, w, step).db.approvals, Next(cfg, w, step).log[i].decision)
    ensures MayDecide(Next(cfg, w, step).log[i].decision.caller.role)
  {
    var w' := Next(cfg, w, step);
    LogGrows(cfg, w, step);
    if i < |w.log| {
      assert w'.log[i] == w.log[i];
      LeftStays(cfg, w, step, w.log[i].decision);
    } else {
      PendingUntouched(w);
      DecisionNow(cfg, w, step, i);
      LeftNow(cfg, w, step.pid);
    }
  }

  lemma DecisionNow(cfg: Config, w: World, step: Step, i: nat)
    requires |w.log| <= i < |Next(cfg, w, step).log| && Next(cfg, w, step).log[i].Decide?
    ensures step.CommitDecision? && step.pid in w.work && w.work[step.pid].Deciding?
    ensures Next(cfg, w, step).log != w.log && Next(cfg, w, step).log[i].decision == w.work[step.pid].req
  {
  }

  lemma WorkStep(cfg: Config, w: World, step: Step, pid: int)
    requires pid in Next(cfg, w, step).work && Next(cfg, w, step).work[pid].Deciding?
    requires pid in w.work && w.work[pid].Deciding? ==> MayDecide(w.work[pid].req.caller.role)
    ensures MayDecide(Next(cfg, w, step).work[pid].req.caller.role)
  {
  }

  lemma ExplainedStep(cfg: Config, w: World, step: Step)
    requires LockInv(cfg, w) && Explained(w)
    ensures Explained(Next(cfg, w, step))
  {
    var w' := Next(cfg, w, step);
    PendingUntouched(w);
    forall r | r in w'.db.approvals {
      RowStep(cfg, w, step, r);
    }
    forall i: nat | i < |w'.log| && w'.log[i].Decide? {
      LogStep(cfg, w, step, i);
    }
    forall s | s in w'.db.spds {
      CreatedStep(cfg, w, step, s);
    }
    NumbersStep(cfg, w, step);
    forall pid | pid in w'.work && w'.work[pid].Deciding? {
      WorkStep(cfg, w, step, pid);
    }
  }

  lemma {:induction false} ExplainedRun(cfg: Config, steps: seq<Step>)
    ensures Explained(Reached(cfg, steps))
  {
    if steps != [] {
      var init, last := steps[..|steps| - 1], steps[|steps| - 1];
      ExplainedRun(cfg, init);
      LockInvRun(cfg, EMPTY, init);
      ExplainedStep(cfg, Reached(cfg, init), last);
    }
  }

  /** Every row of every reachable state is as a consumer inserted it, or records exactly one committed
      decision: its verdict, caller, time and comment, on a row that was open to that caller. */
  lemma EveryRowExplained(cfg: Config, steps: seq<Step>, r: int)
    requires r in Reached(cfg, steps).db.approvals
    ensures var w := Reached(cfg, steps);
      var a := w.db.approvals[r];
      || a == Approval(a.spd, 1, None, Pending, None, None, None)
      || (exists i :: 0 <= i < |w.log| && w.log[i].Decide? && DecidedAs(a, w.log[i].decision))
  {
    ExplainedRun(cfg, steps);
  }

  /** Every committed decision was made in a role that may decide, and its verdict, caller, time and
      comment stand in a row of its order. */
  lemma EveryDecisionRecorded(cfg: Config, steps: seq<Step>, i: nat)
    requires i < |Reached(cfg, steps).log| && Reached(cfg, steps).log[i].Decide?
    ensures var w := Reached(cfg, steps);
      MayDecide(w.log[i].decision.caller.role) && LeftRow(w.db.approvals, w.log[i].decision)
  {
    ExplainedRun(cfg, steps);
  }

  /** Every order keeps the creator, unit and number of its creation, and no two share a number. */
  lemma EveryOrderOriginal(cfg: Config, steps: seq<Step>, s: int, t: int)
    requires s in Reached(cfg, steps).db.spds && t in Reached(cfg, steps).db.spds
    ensures var w := Reached(cfg, steps);
      && CreatedInLog(s, w.db.spds[s], w.log) && |w.db.spds[s].number| <= 50
      && (w.db.spds[s].number == w.db.spds[t].number ==> s == t)
  {
    ExplainedRun(cfg, steps);
  }
}
