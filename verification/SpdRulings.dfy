/** What an order's status says about the decisions on it, when row policies may hide the order from
    the one who decides: the status is the verdict of the last decision whose caller could update it. */
module SpdRulings {
  import opened Wrappers
  import opened SpdTables
  import opened SpdProtocol
  import opened SpdSafety

  /** A decision on order `s` by a caller whom the update policy lets through: the creator or SUPER_ADMIN,
      or anybody where the policies do not bind. */
  predicate Rules(pol: Policies, tx: Tx, s: int, spd: Spd) {
    tx.Decide? && tx.decision.spd == s
    && (!pol.applied || tx.decision.caller.user == spd.createdBy || tx.decision.caller.role == "SUPER_ADMIN")
  }

  /** The verdict of the last committed decision of that kind. */
  function Ruling(pol: Policies, log: seq<Tx>, s: int, spd: Spd): Option<Verdict> {
    if log == [] then None
    else
      var last := log[|log| - 1];
      if Rules(pol, last, s, spd) then Some(last.decision.verdict) else Ruling(pol, log[..|log| - 1], s, spd)
  }

  predicate ShowsRuling(cfg: Config, w: World, s: int) {
    s in w.db.spds ==>
      match Ruling(cfg.pol, w.log, s, w.db.spds[s])
      case None => w.db.spds[s].status in {Draft, Submitted}
      case Some(v) => w.db.spds[s].status == StatusOf(v)
  }

  lemma RulingAppend(pol: Policies, log: seq<Tx>, tx: Tx, s: int, spd: Spd)
    ensures Ruling(pol, log + [tx], s, spd)
         == if Rules(pol, tx, s, spd) then Some(tx.decision.verdict) else Ruling(pol, log, s, spd)
  {
    assert (log + [tx])[..|log|] == log;
  }

  /** Only the creator of the order matters. */
  lemma {:induction false} RulingSame(pol: Policies, log: seq<Tx>, s: int, a: Spd, b: Spd)
    requires a.createdBy == b.createdBy
    ensures Ruling(pol, log, s, a) == Ruling(pol, log, s, b)
  {
    if log != [] {
      RulingSame(pol, log[..|log| - 1], s, a, b);
    }
  }

  lemma {:induction false} NoDecisions(pol: Policies, log: seq<Tx>, s: int, spd: Spd)
    requires Decisions(log, s) == 0
    ensures Ruling(pol, log, s, spd) == None
  {
    if log != [] {
      NoDecisions(pol, log[..|log| - 1], s, spd);
    }
  }

  /** There is no later decision of that kind. */
  predicate LastRule(pol: Policies, log: seq<Tx>, s: int, spd: Spd, i: nat) {
    i < |log| && Rules(pol, log[i], s, spd) && forall j :: i < j < |log| ==> !Rules(pol, log[j], s, spd)
  }

  lemma {:induction false} RulingIsLast(pol: Policies, log: seq<Tx>, s: int, spd: Spd, i: nat)
    requires LastRule(pol, log, s, spd, i)
    ensures Ruling(pol, log, s, spd) == Some(log[i].decision.verdict)
  {
    var n := |log| - 1;
    if i < n {
      assert forall j :: 0 <= j < n ==> log[..n][j] == log[j];
      RulingIsLast(pol, log[..n], s, spd, i);
    }
  }

  lemma {:induction false} RulingExists(pol: Policies, log: seq<Tx>, s: int, spd: Spd)
    ensures Ruling(pol, log, s, spd).Some? <==> exists i :: 0 <= i < |log| && Rules(pol, log[i], s, spd)
  {
    if log != [] {
      var n := |log| - 1;
      RulingExists(pol, log[..n], s, spd);
      assert forall i :: 0 <= i < n ==> log[..n][i] == log[i];
    }
  }

  /** A commit that is not a decision and leaves the order's status alone. */
  lemma Unrelated(cfg: Config, w: World, w': World, s: int, tx: Tx)
    requires ShowsRuling(cfg, w, s) && w'.log == w.log + [tx] && !tx.Decide?
    requires s in w'.db.spds ==> s in w.db.spds && w'.db.spds[s] == w.db.spds[s]
    ensures ShowsRuling(cfg, w', s)
  {
    if s in w.db.spds {
      RulingAppend(cfg.pol, w.log, tx, s, w.db.spds[s]);
    }
  }

  lemma CreateShows(cfg: Config, w: World, step: Step, s: int)
    requires SpdSafe(cfg, w, s) && ShowsRuling(cfg, w, s) && step.CreateSpd?
    ensures ShowsRuling(cfg, Next(cfg, w, step), s)
  {
    var w' := Next(cfg, w, step);
    if w' != w {
      var tx := w'.log[|w.log|];
      if s !in w.db.spds && s in w'.db.spds {
        assert DecidedRowsOf(w.db.approvals, s) <= RowsOf(w.db.approvals, s);
        NoDecisions(cfg.pol, w.log, s, w'.db.spds[s]);
        RulingAppend(cfg.pol, w.log, tx, s, w'.db.spds[s]);
      } else {
        Unrelated(cfg, w, w', s, tx);
      }
    }
  }

  lemma SubmitShows(cfg: Config, w: World, pid: int, s: int)
    requires LockInv(cfg, w) && ShowsRuling(cfg, w, s)
    ensures ShowsRuling(cfg, Next(cfg, w, CommitSubmit(pid)), s)
  {
    var w' := Next(cfg, w, CommitSubmit(pid));
    if w' != w {
      var t := w.work[pid];
      assert WorkOk(cfg, w, pid) && SpdLockOk(cfg, w, t.spd);
      if s == t.spd {
        RulingSame(cfg.pol, w.log, s, w.db.spds[s], w'.db.spds[s]);
        RulingAppend(cfg.pol, w.log, Submit(t.spd, t.caller), s, w'.db.spds[s]);
      } else {
        Unrelated(cfg, w, w', s, Submit(t.spd, t.caller));
      }
    }
  }

  /** A finished decision writes the order exactly when the policy lets its caller update it. */
  lemma CommitWritesIff(cfg: Config, w: World, pid: int)
    requires LockInv(cfg, w) && pid in w.work && w.work[pid].Deciding? && w.work[pid].phase.Finished?
    requires w.work[pid].req.spd in w.db.spds && !w.db.spds[w.work[pid].req.spd].deleted
    ensures var d := w.work[pid].req;
      Next(cfg, w, CommitDecision(pid)).db.spds ==
        if Rules(cfg.pol, Decide(d), d.spd, w.db.spds[d.spd]) then SetStatus(w.db.spds, d.spd, StatusOf(d.verdict))
        else w.db.spds
  {
    assert WorkOk(cfg, w, pid);
    var s := w.work[pid].req.spd;
    assert s in w.spdLock ==> SpdLockOk(cfg, w, s);
  }

  lemma DecisionShows(cfg: Config, w: World, pid: int, s: int)
    requires LockInv(cfg, w) && SpdSafe(cfg, w, s) && ShowsRuling(cfg, w, s)
    ensures ShowsRuling(cfg, Next(cfg, w, CommitDecision(pid)), s)
  {
    var w' := Next(cfg, w, CommitDecision(pid));
    if w' != w && s in w.db.spds {
      var d := w.work[pid].req;
      if d.spd == s {
        CommitWritesIff(cfg, w, pid);
      }
      RulingSame(cfg.pol, w.log, s, w.db.spds[s], w'.db.spds[s]);
      RulingAppend(cfg.pol, w.log, Decide(d), s, w'.db.spds[s]);
    }
  }

  lemma ShowsStep(cfg: Config, w: World, step: Step, s: int)
    requires LockInv(cfg, w) && SpdSafe(cfg, w, s) && ShowsRuling(cfg, w, s)
    ensures ShowsRuling(cfg, Next(cfg, w, step), s)
  {
    match step
    case CreateSpd(_, _, _, _, _) => CreateShows(cfg, w, step, s);
    case CommitSubmit(pid) => SubmitShows(cfg, w, pid, s);
    case CommitDecision(pid) => DecisionShows(cfg, w, pid, s);
    case Deliver(_, _, _) => DeliverShows(cfg, w, step, s);
    case _ => NothingCommits(cfg, w, step);
  }

  lemma NothingCommits(cfg: Config, w: World, step: Step)
    requires !step.CreateSpd? && !step.CommitSubmit? && !step.Deliver? && !step.CommitDecision?
    ensures Next(cfg, w, step).db == w.db && Next(cfg, w, step).log == w.log
  {
  }

  lemma DeliverShows(cfg: Config, w: World, step: Step, s: int)
    requires ShowsRuling(cfg, w, s) && step.Deliver?
    ensures ShowsRuling(cfg, Next(cfg, w, step), s)
  {
    var w' := Next(cfg, w, step);
    if w'.log != w.log {
      Unrelated(cfg, w, w', s, Insert(step.row, step.spd, 1));
    }
  }

  lemma {:induction false} ShowsRun(cfg: Config, steps: seq<Step>, s: int)
    ensures ShowsRuling(cfg, Reached(cfg, steps), s)
  {
    if steps != [] {
      var init, last := steps[..|steps| - 1], steps[|steps| - 1];
      ShowsRun(cfg, init, s);
      assert LockInv(cfg, Reached(cfg, init)) && SpdSafe(cfg, Reached(cfg, init), s) by {
        SafeRun(cfg, init);
      }
      ShowsStep(cfg, Reached(cfg, init), last, s);
    }
  }

  /** In every reachable state, policies on or off: an order's status is a verdict exactly when some
      committed decision on it came from a caller who may update it, and it is then the verdict of
      the last such decision; all other decisions leave no trace in it. */
  lemma StatusIsRuling(cfg: Config, steps: seq<Step>, s: int)
    requires s in Reached(cfg, steps).db.spds
    ensures var w := Reached(cfg, steps);
      var spd := w.db.spds[s];
      && (spd.status in {Approved, Rejected} <==> exists i :: 0 <= i < |w.log| && Rules(cfg.pol, w.log[i], s, spd))
      && (forall i: nat :: LastRule(cfg.pol, w.log, s, spd, i) ==>
            spd.status == if w.log[i].decision.verdict.Approve? then Approved else Rejected)
  {
    var w := Reached(cfg, steps);
    ShowsRun(cfg, steps, s);
    RulingExists(cfg.pol, w.log, s, w.db.spds[s]);
    forall i: nat | LastRule(cfg.pol, w.log, s, w.db.spds[s], i) {
      RulingIsLast(cfg.pol, w.log, s, w.db.spds[s], i);
    }
  }
}
