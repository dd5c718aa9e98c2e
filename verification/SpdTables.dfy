/** The `spds` and `approvals` tables, the SQL statements that the two repositories run on
    them, and each repository call as one all-or-nothing transaction. */
module SpdTables {
  import opened Wrappers
  import opened Sets

  datatype Status = Draft | Submitted | Approved | Rejected | Cancelled

  datatype Spd = Spd(status: Status, createdBy: int, unit: int, number: string, deleted: bool)

  datatype Verdict = Approve | Reject

  datatype RowStatus = Pending | Decided(verdict: Verdict)

  datatype Approval = Approval(
    spd: int, step: int, approver: Option<int>, status: RowStatus,
    comment: Option<string>, decidedBy: Option<int>, decidedAt: Option<int>)

  datatype Db = Db(spds: map<int, Spd>, approvals: map<int, Approval>)

  /** The identity that SetRLSContext installs for a transaction. */
  datatype Caller = Caller(user: int, role: string)

  /** Whether the row policies bind this connection (a table owner bypasses them), and user_units. */
  datatype Policies = Policies(applied: bool, units: set<(int, int)>)

  const SUPER_ADMIN := "SUPER_ADMIN"

  predicate MayInsert(pol: Policies, caller: Caller, unit: int) {
    !pol.applied || (caller.user, unit) in pol.units || caller.role == SUPER_ADMIN
  }

  predicate MayUpdate(pol: Policies, caller: Caller, spd: Spd) {
    !pol.applied || spd.createdBy == caller.user || caller.role == SUPER_ADMIN
  }

  function StatusOf(v: Verdict): Status {
    match v case Approve => Approved case Reject => Rejected
  }

  /** What one call of the repository's Approve or Reject carries. */
  datatype Decision = Decision(spd: int, verdict: Verdict, caller: Caller, comment: Option<string>, now: int)

  // WHERE spd_id = $1 AND status = 'PENDING' AND (approver_id IS NULL OR approver_id = $2)
  predicate Matches(a: Approval, d: Decision) {
    && a.spd == d.spd
    && a.status == Pending
    && (a.approver == None || a.approver == Some(d.caller.user))
  }

  function MatchingRows(approvals: map<int, Approval>, d: Decision): set<int> {
    set r | r in approvals && Matches(approvals[r], d)
  }

  function Mark(a: Approval, d: Decision): Approval {
    a.(status := Decided(d.verdict), comment := d.comment,
       decidedBy := Some(d.caller.user), decidedAt := Some(d.now))
  }

  function MarkRows(approvals: map<int, Approval>, rows: set<int>, d: Decision): map<int, Approval> {
    map r | r in approvals :: if r in rows then Mark(approvals[r], d) else approvals[r]
  }

  // WHERE id = $1 AND deleted_at IS NULL, under the caller's row policy
  predicate Reaches(pol: Policies, spds: map<int, Spd>, d: Decision) {
    d.spd in spds && !spds[d.spd].deleted && MayUpdate(pol, d.caller, spds[d.spd])
  }

  function SetStatus(spds: map<int, Spd>, id: int, status: Status): map<int, Spd>
    requires id in spds
  {
    spds[id := spds[id].(status := status)]
  }

  // WHERE id = $1 AND status = 'DRAFT' AND deleted_at IS NULL, under the caller's row policy
  predicate Submittable(pol: Policies, spds: map<int, Spd>, id: int, caller: Caller) {
    id in spds && spds[id].status == Draft && !spds[id].deleted && MayUpdate(pol, caller, spds[id])
  }

  function PendingRow(spd: int, step: int): Approval {
    Approval(spd, step, None, Pending, None, None, None)
  }

  /** The column `nomor_surat` is unique and holds up to fifty characters. */
  predicate NumberFree(spds: map<int, Spd>, number: string) {
    |number| <= 50 && forall s :: s in spds ==> spds[s].number != number
  }

  /** The write transactions. Fresh ids come from the tables' sequences; `known` tells whether the
      unit and the employee that a new order refers to exist. */
  datatype Tx =
    | Create(id: int, unit: int, creator: Caller, number: string, known: bool)
    | Submit(id: int, submitter: Caller)
    | Insert(row: int, spd: int, step: int)
    | Decide(decision: Decision)

  /** A transaction run alone: its effect when it commits, None when it rolls back. */
  function RunTx(pol: Policies, db: Db, tx: Tx): Option<Db> {
    match tx
    case Create(id, unit, c, number, known) =>
      if id !in db.spds && known && NumberFree(db.spds, number) && MayInsert(pol, c, unit)
      then Some(db.(spds := db.spds[id := Spd(Draft, c.user, unit, number, false)]))
      else None
    case Submit(id, c) =>
      if Submittable(pol, db.spds, id, c) then Some(db.(spds := SetStatus(db.spds, id, Submitted))) else None
    case Insert(row, spd, step) =>
      if row !in db.approvals && spd in db.spds
      then Some(db.(approvals := db.approvals[row := PendingRow(spd, step)]))
      else None
    case Decide(d) =>
      var rows := MatchingRows(db.approvals, d);
      if rows == {} then None
      else Some(Db(
        if Reaches(pol, db.spds, d) then SetStatus(db.spds, d.spd, StatusOf(d.verdict)) else db.spds,
        MarkRows(db.approvals, rows, d)))
  }

  /** Transactions run one after the other; None as soon as one of them rolls back. */
  function RunAll(pol: Policies, db: Db, txs: seq<Tx>): Option<Db> {
    if txs == [] then Some(db)
    else match RunAll(pol, db, txs[..|txs| - 1])
      case None => None
      case Some(d) => RunTx(pol, d, txs[|txs| - 1])
  }

  lemma {:induction false} RunAllAppend(pol: Policies, db: Db, a: seq<Tx>, b: seq<Tx>)
    requires RunAll(pol, db, a).Some?
    ensures RunAll(pol, db, a + b) == RunAll(pol, RunAll(pol, db, a).value, b)
  {
    if b == [] {
      assert a + b == a;
    } else {
      RunAllAppend(pol, db, a, b[..|b| - 1]);
      assert (a + b)[..|a + b| - 1] == a + b[..|b| - 1];
    }
  }

  /** The foreign key approvals.spd_id REFERENCES spds(id). */
  predicate ForeignKey(db: Db) {
    forall r :: r in db.approvals ==> db.approvals[r].spd in db.spds
  }

  /** Between the two states of a committed decision the rows of its order that were pending for anybody
      or for its caller have been decided by the caller, and every other row is as it was. */
  ghost predicate RowsDecided(before: map<int, Approval>, after: map<int, Approval>, spd: int, verdict: Verdict,
                              caller: Caller, comment: Option<string>, now: int) {
    && after.Keys == before.Keys
    && forall r :: r in before ==>
         var a := before[r];
         after[r] ==
           if a.spd == spd && a.status == Pending && (a.approver == None || a.approver == Some(caller.user))
           then Approval(a.spd, a.step, a.approver, Decided(verdict), comment, Some(caller.user), Some(now))
           else a
  }

  /** The rows that a decision would reach. */
  ghost predicate SomethingPending(rows: map<int, Approval>, spd: int, user: int) {
    exists r :: r in rows && rows[r].spd == spd && rows[r].status == Pending
      && (rows[r].approver == None || rows[r].approver == Some(user))
  }

  lemma PendingIff(rows: map<int, Approval>, d: Decision)
    ensures SomethingPending(rows, d.spd, d.caller.user) <==> MatchingRows(rows, d) != {}
  {
    SomeMember(MatchingRows(rows, d));
    if r :| r in rows && Matches(rows[r], d) {
      assert r in MatchingRows(rows, d);
    }
  }

  /** Only one order changes, and of it only the status, where the caller may write it. */
  ghost predicate OrderDecided(before: map<int, Spd>, after: map<int, Spd>, spd: int, status: Status,
                               caller: Caller, bound: bool) {
    && after.Keys == before.Keys
    && forall s :: s in before ==>
         var o := before[s];
         after[s] ==
           if s == spd && !o.deleted && (!bound || o.createdBy == caller.user || caller.role == "SUPER_ADMIN")
           then Spd(status, o.createdBy, o.unit, o.number, o.deleted)
           else o
  }

  /** The repositories of spd-service and approval-service over one database. Every method works on
      a private copy and installs it at the end, as WithTx does: an early return leaves `db` alone. */
  class Repository {
    var db: Db
    const pol: Policies

    constructor (pol: Policies, db: Db)
      ensures this.pol == pol && this.db == db
    {
      this.pol := pol;
      this.db := db;
    }

    /** The outcome of a call whose transaction is `tx`, started in `before`. */
    ghost predicate Outcome(before: Db, tx: Tx, committed: bool)
      reads this
    {
      match RunTx(pol, before, tx)
      case None => !committed && db == before
      case Some(d) => committed && db == d
    }

    method CreateSPD(caller: Caller, unit: int, number: string, known: bool, id: int) returns (out: Option<Spd>)
      modifies this`db
      ensures Outcome(old(db), Create(id, unit, caller, number, known), out.Some?)
      ensures out.Some? <==>
        && (!pol.applied || (caller.user, unit) in pol.units || caller.role == "SUPER_ADMIN")
        && id !in old(db).spds && |number| <= 50 && known
        && (forall s :: s in old(db).spds ==> old(db).spds[s].number != number)
      ensures out.Some? ==> out == Some(Spd(Draft, caller.user, unit, number, false))
      ensures db == if out.Some? then old(db).(spds := old(db).spds[id := out.value]) else old(db)
    {
      var tx := db;
      if !MayInsert(pol, caller, unit) || id in tx.spds || !NumberFree(tx.spds, number) || !known {
        return None;
      }
      var row := Spd(Draft, caller.user, unit, number, false);
      tx := tx.(spds := tx.spds[id := row]);
      db := tx;
      out := Some(row);
    }

    method SubmitSPD(caller: Caller, id: int) returns (out: Option<Spd>)
      modifies this`db
      ensures Outcome(old(db), Submit(id, caller), out.Some?)
      ensures out.Some? <==>
        && id in old(db).spds && old(db).spds[id].status == Draft && !old(db).spds[id].deleted
        && (!pol.applied || old(db).spds[id].createdBy == caller.user || caller.role == "SUPER_ADMIN")
      ensures out.Some? ==>
        out == Some(Spd(Submitted, old(db).spds[id].createdBy, old(db).spds[id].unit, old(db).spds[id].number, false))
      ensures db == if out.Some? then old(db).(spds := old(db).spds[id := out.value]) else old(db)
    {
      var tx := db;
      if !Submittable(pol, tx.spds, id, caller) {
        return None;
      }
      tx := tx.(spds := SetStatus(tx.spds, id, Submitted));
      out := Some(tx.spds[id]);
      db := tx;
    }

    method CreatePendingApproval(spd: int, step: int, row: int) returns (ok: bool)
      modifies this`db
      ensures Outcome(old(db), Insert(row, spd, step), ok)
      ensures ok <==> row !in old(db).approvals && spd in old(db).spds
      ensures db == if ok then old(db).(approvals := old(db).approvals[row := Approval(spd, step, None, Pending, None, None, None)])
                    else old(db)
    {
      // No key but the primary key can conflict, so the statement inserts or violates a constraint.
      ok := row !in db.approvals && spd in db.spds;
      if ok {
        db := db.(approvals := db.approvals[row := PendingRow(spd, step)]);
      }
    }

    method Approve(caller: Caller, spd: int, comment: Option<string>, now: int) returns (out: Option<Approval>)
      modifies this`db
      ensures var d := Decision(spd, Verdict.Approve, caller, comment, now);
        && Outcome(old(db), Decide(d), out.Some?)
        && (out.Some? ==> exists r :: r in MatchingRows(old(db).approvals, d) && out == Some(db.approvals[r]))
      ensures out.Some? <==> SomethingPending(old(db).approvals, spd, caller.user)
      ensures out.Some? ==> out.value.spd == spd && out.value.decidedBy == Some(caller.user)
      ensures out.Some? ==> RowsDecided(old(db).approvals, db.approvals, spd, Verdict.Approve, caller, comment, now)
      ensures out.Some? ==> OrderDecided(old(db).spds, db.spds, spd, Approved, caller, pol.applied)
      ensures out.None? ==> db == old(db)
    {
      var d := Decision(spd, Verdict.Approve, caller, comment, now);
      var tx := db;
      var rows := MatchingRows(tx.approvals, d);
      PendingIff(tx.approvals, d);
      SomeMember(rows);
      if rows == {} {
        return None;
      }
      var first :| first in rows;
      tx := tx.(approvals := MarkRows(tx.approvals, rows, d));
      if Reaches(pol, tx.spds, d) {
        tx := tx.(spds := SetStatus(tx.spds, spd, Approved));
      }
      out := Some(tx.approvals[first]);
      db := tx;
    }

    method Reject(caller: Caller, spd: int, comment: Option<string>, now: int) returns (out: Option<Approval>)
      modifies this`db
      ensures var d := Decision(spd, Verdict.Reject, caller, comment, now);
        && Outcome(old(db), Decide(d), out.Some?)
        && (out.Some? ==> exists r :: r in MatchingRows(old(db).approvals, d) && out == Some(db.approvals[r]))
      ensures out.Some? <==> SomethingPending(old(db).approvals, spd, caller.user)
      ensures out.Some? ==> out.value.spd == spd && out.value.decidedBy == Some(caller.user)
      ensures out.Some? ==> RowsDecided(old(db).approvals, db.approvals, spd, Verdict.Reject, caller, comment, now)
      ensures out.Some? ==> OrderDecided(old(db).spds, db.spds, spd, Rejected, caller, pol.applied)
      ensures out.None? ==> db == old(db)
    {
      var d := Decision(spd, Verdict.Reject, caller, comment, now);
      var tx := db;
      var rows := MatchingRows(tx.approvals, d);
      PendingIff(tx.approvals, d);
      SomeMember(rows);
      if rows == {} {
        return None;
      }
      var first :| first in rows;
      tx := tx.(approvals := MarkRows(tx.approvals, rows, d));
      if Reaches(pol, tx.spds, d) {
        tx := tx.(spds := SetStatus(tx.spds, spd, Rejected));
      }
      out := Some(tx.approvals[first]);
      db := tx;
    }
  }
}
