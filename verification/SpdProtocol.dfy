/** The SPD workflow as a step system: statement-level transactions with row locks at Read
    Committed, the `spd.submitted` event between the services, and the consumers that turn
    each received copy into a pending approval row. A run is any sequence of steps. */
module SpdProtocol {
  import opened Wrappers
  import opened Sets
  import opened SpdTables

  /** How far a decision transaction has got. `todo` are the rows its first UPDATE saw and has
      not yet reached. */
  datatype Phase = Started | Scanning(todo: set<int>) | Marked | Finished

  datatype Work =
    | Deciding(req: Decision, phase: Phase)
    | Submitting(spd: int, caller: Caller, locked: bool)

  datatype World = World(
    db: Db,                        // committed rows
    work: map<int, Work>,          // open transactions
    rowLock: map<int, int>,        // approval row -> transaction that has updated it
    spdLock: map<int, int>,        // spd row -> transaction that has updated it
    unpublished: set<int>,         // submitted, the handler has not reached Publish yet
    copies: set<(int, int)>,       // (spd, consumer) event copies under way
    log: seq<Tx>)                  // committed transactions, in commit order

  /** `consumers` approval-service instances subscribe separately. */
  datatype Config = Config(pol: Policies, consumers: nat)

  datatype Step =
    | CreateSpd(id: int, unit: int, creator: Caller, number: string, known: bool)
    | BeginSubmit(pid: int, spd: int, caller: Caller)
    | LockSubmit(pid: int)
    | CommitSubmit(pid: int)
    | Publish(spd: int)
    | LosePublish(spd: int)
    | LoseCopy(spd: int, consumer: int)
    | Deliver(spd: int, consumer: int, row: int)
    | BeginDecision(pid: int, req: Decision)
    | Scan(pid: int)
    | Visit(pid: int, row: int)
    | EndScan(pid: int)
    | UpdateSpd(pid: int)
    | CommitDecision(pid: int)
    | Abort(pid: int)

  function Start(db: Db): World {
    World(db, map[], map[], map[], {}, {}, [])
  }

  predicate CanApprove(role: string) {
    role in {"SUPER_ADMIN", "APPROVER", "FINANCE", "BUDGET_ADMIN"}
  }

  function Held(w: World, pid: int): set<int> {
    set r | r in w.rowLock && w.rowLock[r] == pid
  }

  function Release(locks: map<int, int>, pid: int): map<int, int> {
    map r | r in locks && locks[r] != pid :: locks[r]
  }

  /** The end of a transaction: its locks go, whether it committed or not. */
  function Close(w: World, pid: int): World {
    w.(work := w.work - {pid}, rowLock := Release(w.rowLock, pid), spdLock := Release(w.spdLock, pid))
  }

  predicate InPhase(w: World, pid: int, p: Phase -> bool) {
    pid in w.work && w.work[pid].Deciding? && p(w.work[pid].phase)
  }

  function SetPhase(w: World, pid: int, p: Phase): World
    requires pid in w.work && w.work[pid].Deciding?
  {
    w.(work := w.work[pid := w.work[pid].(phase := p)])
  }

  /** One step; a step that is not enabled leaves the world as it is. */
  function Next(cfg: Config, w: World, step: Step): World {
    match step
    case CreateSpd(id, unit, c, number, known) => Commit(cfg, w, Create(id, unit, c, number, known))
    case BeginSubmit(pid, spd, c) =>
      if pid in w.work then w else w.(work := w.work[pid := Submitting(spd, c, false)])
    case LockSubmit(pid) => NextLockSubmit(cfg, w, pid)
    case CommitSubmit(pid) => NextCommitSubmit(w, pid)
    case Publish(spd) =>
      if spd !in w.unpublished then w
      else w.(unpublished := w.unpublished - {spd}, copies := w.copies + Copies(spd, cfg.consumers))
    case LosePublish(spd) => w.(unpublished := w.unpublished - {spd})
    case LoseCopy(spd, c) => w.(copies := w.copies - {(spd, c)})
    case Deliver(spd, c, row) =>
      if (spd, c) !in w.copies then w
      else
        var w' := w.(copies := w.copies - {(spd, c)});
        if spd == 0 then w' else Commit(cfg, w', Insert(row, spd, 1))
    case BeginDecision(pid, req) =>
      if pid in w.work || !CanApprove(req.caller.role) then w
      else w.(work := w.work[pid := Deciding(req, Started)])
    case Scan(pid) =>
      if !InPhase(w, pid, (p: Phase) => p.Started?) then w
      else SetPhase(w, pid, Scanning(MatchingRows(w.db.approvals, w.work[pid].req)))
    case Visit(pid, row) => NextVisit(w, pid, row)
    case EndScan(pid) =>
      if !InPhase(w, pid, (p: Phase) => p == Scanning({})) then w
      else if Held(w, pid) == {} then Close(w, pid)
      else SetPhase(w, pid, Marked)
    case UpdateSpd(pid) => NextUpdateSpd(cfg, w, pid)
    case CommitDecision(pid) => NextCommitDecision(w, pid)
    case Abort(pid) => if pid in w.work then Close(w, pid) else w
  }

  /** One copy of the event for each consumer. */
  function Copies(spd: int, consumers: nat): (r: set<(int, int)>)
    ensures forall p :: p in r <==> p.0 == spd && 0 <= p.1 < consumers
    ensures |r| == consumers
  {
    if consumers == 0 then {} else Copies(spd, consumers - 1) + {(spd, consumers - 1)}
  }

  /** A single-statement transaction: one step, or no effect when it fails. */
  function Commit(cfg: Config, w: World, tx: Tx): World {
    match RunTx(cfg.pol, w.db, tx)
    case None => w
    case Some(d) => w.(db := d, log := w.log + [tx])
  }

  /** The guarded UPDATE of SubmitSPD: waits for the row lock, then checks WHERE. */
  function NextLockSubmit(cfg: Config, w: World, pid: int): World {
    if pid !in w.work || !w.work[pid].Submitting? || w.work[pid].locked then w
    else
      var t := w.work[pid];
      if t.spd in w.spdLock then w
      else if !Submittable(cfg.pol, w.db.spds, t.spd, t.caller) then Close(w, pid)
      else w.(work := w.work[pid := t.(locked := true)], spdLock := w.spdLock[t.spd := pid])
  }

  function NextCommitSubmit(w: World, pid: int): World {
    if pid !in w.work || !w.work[pid].Submitting? || !w.work[pid].locked then w
    else
      var t := w.work[pid];
      if t.spd !in w.db.spds then w
      else Close(w, pid).(
        db := w.db.(spds := SetStatus(w.db.spds, t.spd, Submitted)),
        unpublished := w.unpublished + {t.spd},
        log := w.log + [Submit(t.spd, t.caller)])
  }

  /** The first UPDATE reaches one of the rows it saw: it waits while another transaction holds
      the row and re-checks WHERE on the version that is then committed. */
  function NextVisit(w: World, pid: int, row: int): World {
    if !InPhase(w, pid, (p: Phase) => p.Scanning? && row in p.todo) || row in w.rowLock then w
    else
      var t := w.work[pid];
      var w' := SetPhase(w, pid, Scanning(t.phase.todo - {row}));
      if row in w.db.approvals && Matches(w.db.approvals[row], t.req)
      then w'.(rowLock := w.rowLock[row := pid])
      else w'
  }

  /** The second UPDATE takes the lock of the SPD row, or matches no row. */
  function NextUpdateSpd(cfg: Config, w: World, pid: int): World {
    if !InPhase(w, pid, (p: Phase) => p.Marked?) then w
    else
      var d := w.work[pid].req;
      if !Reaches(cfg.pol, w.db.spds, d) then SetPhase(w, pid, Finished)
      else if d.spd in w.spdLock then w
      else SetPhase(w, pid, Finished).(spdLock := w.spdLock[d.spd := pid])
  }

  /** The writes made under the transaction's locks become visible. */
  function NextCommitDecision(w: World, pid: int): World {
    if !InPhase(w, pid, (p: Phase) => p.Finished?) then w
    else
      var d := w.work[pid].req;
      var wrote := d.spd in w.spdLock && w.spdLock[d.spd] == pid && d.spd in w.db.spds;
      Close(w, pid).(
        db := Db(if wrote then SetStatus(w.db.spds, d.spd, StatusOf(d.verdict)) else w.db.spds,
                 MarkRows(w.db.approvals, Held(w, pid), d)),
        log := w.log + [Decide(d)])
  }

  function Run(cfg: Config, w: World, steps: seq<Step>): World {
    if steps == [] then w
    else Next(cfg, Run(cfg, w, steps[..|steps| - 1]), steps[|steps| - 1])
  }

  lemma {:induction false} RunAppend(cfg: Config, w: World, a: seq<Step>, b: seq<Step>)
    ensures Run(cfg, w, a + b) == Run(cfg, Run(cfg, w, a), b)
  {
    if b == [] {
      assert a + b == a;
    } else {
      RunAppend(cfg, w, a, b[..|b| - 1]);
      assert (a + b)[..|a + b| - 1] == a + b[..|b| - 1];
    }
  }

  /** What every lock stands for: the holder is at a point where it may commit with it, and the
      committed row under it still satisfies the holder's WHERE clause. */
  predicate LockInv(cfg: Config, w: World) {
    && ForeignKey(w.db)
    && (forall r :: r in w.rowLock ==> RowLockOk(w, r))
    && (forall s :: s in w.spdLock ==> SpdLockOk(cfg, w, s))
    && (forall pid :: pid in w.work ==> WorkOk(cfg, w, pid))
  }

  predicate RowLockOk(w: World, r: int)
    requires r in w.rowLock
  {
    var pid := w.rowLock[r];
    && pid in w.work && w.work[pid].Deciding? && !w.work[pid].phase.Started?
    && r in w.db.approvals && Matches(w.db.approvals[r], w.work[pid].req)
  }

  predicate SpdLockOk(cfg: Config, w: World, s: int)
    requires s in w.spdLock
  {
    var pid := w.spdLock[s];
    && pid in w.work
    && match w.work[pid]
       case Deciding(d, phase) => phase.Finished? && d.spd == s && Reaches(cfg.pol, w.db.spds, d)
       case Submitting(id, c, locked) => locked && id == s && Submittable(cfg.pol, w.db.spds, s, c)
  }

  predicate WorkOk(cfg: Config, w: World, pid: int)
    requires pid in w.work
  {
    match w.work[pid]
    case Deciding(d, phase) =>
      && (phase.Marked? || phase.Finished? ==> Held(w, pid) != {})
      && (phase.Finished? && Reaches(cfg.pol, w.db.spds, d) ==> d.spd in w.spdLock && w.spdLock[d.spd] == pid)
    case Submitting(id, c, locked) => locked ==> id in w.spdLock && w.spdLock[id] == pid
  }

  lemma LockInvStep(cfg: Config, w: World, step: Step)
    requires LockInv(cfg, w)
    ensures LockInv(cfg, Next(cfg, w, step))
  {
    var w' := Next(cfg, w, step);
    ForeignKeyStep(cfg, w, step);
    forall r | r in w'.rowLock
      ensures RowLockOk(w', r)
    {
      RowLockOkStep(cfg, w, step, r);
    }
    forall s | s in w'.spdLock
      ensures SpdLockOk(cfg, w', s)
    {
      SpdLockOkStep(cfg, w, step, s);
    }
    forall pid | pid in w'.work
      ensures WorkOk(cfg, w', pid)
    {
      WorkOkStep(cfg, w, step, pid);
    }
  }

  /** Only the holder of a row's lock goes on or lets it go, and nobody else changes the row. */
  lemma RowLockOkStep(cfg: Config, w: World, step: Step, r: int)
    requires forall q :: q in w.rowLock ==> RowLockOk(w, q)
    requires r in Next(cfg, w, step).rowLock
    ensures RowLockOk(Next(cfg, w, step), r)
  {
    if r in w.rowLock {
      assert RowLockOk(w, r);
    }
  }

  lemma SpdLockOkStep(cfg: Config, w: World, step: Step, s: int)
    requires LockInv(cfg, w)
    requires s in Next(cfg, w, step).spdLock
    ensures SpdLockOk(cfg, Next(cfg, w, step), s)
  {
    if s in w.spdLock {
      SpdLockKept(cfg, w, step, s);
    }
  }

  /** While an order is locked, only the holder can write it. */
  lemma SpdLockKept(cfg: Config, w: World, step: Step, s: int)
    requires forall q :: q in w.spdLock ==> SpdLockOk(cfg, w, q)
    requires forall pid :: pid in w.work ==> WorkOk(cfg, w, pid)
    requires s in w.spdLock && s in Next(cfg, w, step).spdLock
    ensures SpdLockOk(cfg, Next(cfg, w, step), s)
  {
    assert SpdLockOk(cfg, w, s);
    LockedStays(cfg, w, step, s);
    HolderWaits(cfg, w, step, s);
  }

  /** A locked order is not written before its lock goes. */
  lemma LockedStays(cfg: Config, w: World, step: Step, s: int)
    requires forall q :: q in w.spdLock ==> SpdLockOk(cfg, w, q)
    requires forall pid :: pid in w.work ==> WorkOk(cfg, w, pid)
    requires s in w.spdLock && s in Next(cfg, w, step).spdLock
    ensures s in w.db.spds && s in Next(cfg, w, step).db.spds && Next(cfg, w, step).db.spds[s] == w.db.spds[s]
  {
    assert SpdLockOk(cfg, w, s);
  }

  /** The holder of an order's lock has only its commit before it. */
  lemma HolderWaits(cfg: Config, w: World, step: Step, s: int)
    requires s in w.spdLock && SpdLockOk(cfg, w, s) && s in Next(cfg, w, step).spdLock
    ensures var w', pid := Next(cfg, w, step), w.spdLock[s];
      w'.spdLock[s] == pid && pid in w'.work && w'.work[pid] == w.work[pid]
  {
  }

  lemma ForeignKeyStep(cfg: Config, w: World, step: Step)
    requires ForeignKey(w.db)
    ensures ForeignKey(Next(cfg, w, step).db)
  {
  }

  lemma WorkOkStep(cfg: Config, w: World, step: Step, pid: int)
    requires LockInv(cfg, w)
    requires pid in Next(cfg, w, step).work
    ensures WorkOk(cfg, Next(cfg, w, step), pid)
  {
    if pid in w.work && Next(cfg, w, step).work[pid] == w.work[pid] {
      assert WorkOk(cfg, w, pid);
      WorkKept(cfg, w, step, pid);
    } else {
      HeldGrows(cfg, w, step, pid);
      assert pid in w.work ==> WorkOk(cfg, w, pid);
    }
  }

  /** A transaction that waits while others take steps. */
  lemma WorkKept(cfg: Config, w: World, step: Step, pid: int)
    requires LockInv(cfg, w) && pid in w.work && WorkOk(cfg, w, pid)
    requires pid in Next(cfg, w, step).work && Next(cfg, w, step).work[pid] == w.work[pid]
    ensures WorkOk(cfg, Next(cfg, w, step), pid)
  {
    HeldGrows(cfg, w, step, pid);
    if w.work[pid].Deciding? && w.work[pid].phase.Finished? {
      HeldRowsExist(cfg, w, pid);
      ReachStays(cfg, w, step, w.work[pid].req);
      LockStays(cfg, w, step, pid, w.work[pid].req.spd);
    } else if w.work[pid].Submitting? && w.work[pid].locked {
      LockStays(cfg, w, step, pid, w.work[pid].spd);
    }
  }

  /** An order that a decision can reach stays so, and one that it cannot reach does not come up. */
  lemma ReachStays(cfg: Config, w: World, step: Step, d: Decision)
    requires d.spd in w.db.spds
    ensures Reaches(cfg.pol, Next(cfg, w, step).db.spds, d) <==> Reaches(cfg.pol, w.db.spds, d)
  {
  }

  lemma LockStays(cfg: Config, w: World, step: Step, pid: int, s: int)
    requires pid in Next(cfg, w, step).work
    ensures var w' := Next(cfg, w, step);
      s in w.spdLock && w.spdLock[s] == pid ==> s in w'.spdLock && w'.spdLock[s] == pid
  {
  }

  /** A transaction that holds an approval row works on an SPD that exists. */
  lemma HeldRowsExist(cfg: Config, w: World, pid: int)
    requires LockInv(cfg, w) && Held(w, pid) != {}
    ensures pid in w.work && w.work[pid].Deciding? && w.work[pid].req.spd in w.db.spds
  {
    SomeMember(Held(w, pid));
    var r :| r in Held(w, pid);
    assert RowLockOk(w, r);
  }

  /** A transaction keeps its row locks until it ends. */
  lemma HeldGrows(cfg: Config, w: World, step: Step, pid: int)
    requires pid in Next(cfg, w, step).work
    ensures Held(w, pid) <= Held(Next(cfg, w, step), pid)
  {
  }

  lemma {:induction false} LockInvRun(cfg: Config, db: Db, steps: seq<Step>)
    requires ForeignKey(db)
    ensures LockInv(cfg, Run(cfg, Start(db), steps))
  {
    if steps != [] {
      LockInvRun(cfg, db, steps[..|steps| - 1]);
      LockInvStep(cfg, Run(cfg, Start(db), steps[..|steps| - 1]), steps[|steps| - 1]);
    }
  }
}
