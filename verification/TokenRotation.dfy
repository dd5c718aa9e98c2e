/** Refresh tokens: the statements on `refresh_tokens`, and the login, refresh and logout handlers
    as step systems over them. A handler runs its reads and writes without a transaction, so other
    handlers, or a crash, may come between any two of its steps. */
module TokenRotation {
  import opened Wrappers
  import opened Sets

  /** Token ids are random and never repeat; here they are numbered in the order of generation. */
  type TokenId = nat

  datatype Row = Row(user: int, expiresAt: int, revokedAt: Option<nat>, replacedBy: Option<TokenId>)

  /** INSERT INTO refresh_tokens (id, user_id, expires_at). */
  function InsertRow(rows: map<TokenId, Row>, id: TokenId, user: int, expiresAt: int): map<TokenId, Row> {
    rows[id := Row(user, expiresAt, None, None)]
  }

  predicate Revocable(rows: map<TokenId, Row>, id: TokenId) {
    id in rows && rows[id].revokedAt == None
  }

  /** UPDATE refresh_tokens SET revoked_at, replaced_by WHERE id = $1 AND revoked_at IS NULL. */
  function RevokeRow(rows: map<TokenId, Row>, id: TokenId, next: Option<TokenId>, now: nat): map<TokenId, Row> {
    if Revocable(rows, id) then rows[id := rows[id].(revokedAt := Some(now), replacedBy := next)] else rows
  }

  /** A row that Refresh accepts for the claims it was shown. */
  predicate Accepts(rows: map<TokenId, Row>, id: TokenId, user: int, clock: int) {
    id in rows && rows[id].user == user && rows[id].revokedAt == None && clock <= rows[id].expiresAt
  }

  /** The rotation of a whole refresh: revoke the old row in favour of the new one. */
  function Refreshed(rows: map<TokenId, Row>, id: TokenId, successor: TokenId, expiresAt: int, now: nat): map<TokenId, Row>
    requires id in rows
  {
    InsertRow(RevokeRow(rows, id, Some(successor), now), successor, rows[id].user, expiresAt)
  }

  /** What was signed into a refresh token: its user, the login it descends from, and the token it
      was exchanged for. Only the proofs read it. */
  datatype Birth = Birth(user: int, root: TokenId, parent: Option<TokenId>)

  /** A handler between two of its steps. */
  datatype Flight =
    | LoggingIn(id: TokenId)
    | Accepted(parent: TokenId, readAt: nat)
    | Minted(parent: TokenId, id: TokenId, readAt: nat)
    | Rotated(parent: TokenId, id: TokenId, readAt: nat, hit: bool)

  /** How often each kind of statement took effect for the tokens of one login: rows inserted by the
      login and by refreshes, rows revoked by refreshes and by logouts, revocations by a refresh that
      found the row already revoked, and rows that such a refresh went on to insert. Only the proofs
      read it, and likewise whether a handler's revocation hit. */
  datatype Account = Account(logins: nat, inserts: nat, rotated: nat, loggedOut: nat, missed: nat, strays: nat)

  /** The tokens a refresh answered with. */
  datatype Response = Response(parent: TokenId, id: TokenId, user: int, readAt: nat)

  datatype Sys = Sys(
    rows: map<TokenId, Row>,
    births: map<TokenId, Birth>,
    nextId: TokenId,
    active: set<int>,
    clock: int,
    tick: nat,
    flights: map<int, Flight>,
    books: map<TokenId, Account>,
    responses: seq<Response>)

  datatype Step =
    | LoginMint(pid: int, user: int)
    | LoginInsert(pid: int)
    | RefreshRead(pid: int, id: TokenId, user: int)
    | RefreshMint(pid: int)
    | RefreshRevoke(pid: int)
    | RefreshInsert(pid: int)
    | Logout(id: TokenId)
    | Crash(pid: int)
    | SetActive(user: int, on: bool)
    | Wait(ms: nat)

  /** `serial`: a handler starts only when no other is running. */
  datatype Config = Config(ttl: int, serial: bool)

  const START := Sys(map[], map[], 0, {}, 0, 0, map[], map[], [])

  predicate MayStart(cfg: Config, s: Sys) {
    cfg.serial ==> s.flights == map[]
  }

  function SetFlight(s: Sys, pid: int, f: Flight): Sys {
    s.(flights := s.flights[pid := f])
  }

  function EndFlight(s: Sys, pid: int): Sys {
    s.(flights := s.flights - {pid})
  }

  function Book(s: Sys, login: TokenId): Account {
    if login in s.books then s.books[login] else Account(0, 0, 0, 0, 0, 0)
  }

  function Root(s: Sys, id: TokenId): TokenId {
    if id in s.births then s.births[id].root else id
  }

  /** Every step takes one tick, enabled or not. */
  function Next(cfg: Config, s: Sys, step: Step): Sys {
    Act(cfg, s, step).(tick := s.tick + 1)
  }

  function Act(cfg: Config, s: Sys, step: Step): Sys {
    match step
    case LoginMint(pid, user) =>
      if pid in s.flights || user !in s.active || !MayStart(cfg, s) then s
      else SetFlight(s, pid, LoggingIn(s.nextId)).(
        births := s.births[s.nextId := Birth(user, s.nextId, None)], nextId := s.nextId + 1)
    case LoginInsert(pid) =>
      if pid !in s.flights || !s.flights[pid].LoggingIn? then s
      else
        var id := s.flights[pid].id;
        if id !in s.births then s
        else EndFlight(s, pid).(
          rows := InsertRow(s.rows, id, s.births[id].user, s.clock + cfg.ttl),
          books := s.books[id := Book(s, id).(logins := Book(s, id).logins + 1)])
    case RefreshRead(pid, id, user) =>
      if pid in s.flights || !MayStart(cfg, s) || !Accepts(s.rows, id, user, s.clock) then s
      else SetFlight(s, pid, Accepted(id, s.tick))
    case RefreshMint(pid) => RefreshMintStep(s, pid)
    case RefreshRevoke(pid) => RefreshRevokeStep(s, pid)
    case RefreshInsert(pid) => RefreshInsertStep(cfg, s, pid)
    case Logout(id) =>
      if !MayStart(cfg, s) || !Revocable(s.rows, id) then s
      else
        var b := Book(s, Root(s, id));
        s.(rows := RevokeRow(s.rows, id, None, s.tick),
           books := s.books[Root(s, id) := b.(loggedOut := b.loggedOut + 1)])
    case Crash(pid) => EndFlight(s, pid)
    case SetActive(user, on) => s.(active := if on then s.active + {user} else s.active - {user})
    case Wait(ms) => s.(clock := s.clock + ms)
  }

  /** The user is looked up, and the new pair is signed for the row's user. */
  function RefreshMintStep(s: Sys, pid: int): Sys {
    if pid !in s.flights || !s.flights[pid].Accepted? then s
    else
      var f := s.flights[pid];
      if f.parent !in s.rows || f.parent !in s.births || s.rows[f.parent].user !in s.active then EndFlight(s, pid)
      else SetFlight(s, pid, Minted(f.parent, s.nextId, f.readAt)).(
        births := s.births[s.nextId := Birth(s.rows[f.parent].user, s.births[f.parent].root, Some(f.parent))],
        nextId := s.nextId + 1)
  }

  function RefreshRevokeStep(s: Sys, pid: int): Sys {
    if pid !in s.flights || !s.flights[pid].Minted? then s
    else
      var f := s.flights[pid];
      var b := Book(s, Root(s, f.parent));
      SetFlight(s, pid, Rotated(f.parent, f.id, f.readAt, Revocable(s.rows, f.parent))).(
        rows := RevokeRow(s.rows, f.parent, Some(f.id), s.tick),
        books := s.books[Root(s, f.parent) :=
          if Revocable(s.rows, f.parent) then b.(rotated := b.rotated + 1) else b.(missed := b.missed + 1)])
  }

  function RefreshInsertStep(cfg: Config, s: Sys, pid: int): Sys {
    if pid !in s.flights || !s.flights[pid].Rotated? then s
    else
      var f := s.flights[pid];
      if f.id !in s.births then s
      else
        var user, root := s.births[f.id].user, s.births[f.id].root;
        EndFlight(s, pid).(
          rows := InsertRow(s.rows, f.id, user, s.clock + cfg.ttl),
          books := s.books[root := Book(s, root).(inserts := Book(s, root).inserts + 1,
                                                  strays := Book(s, root).strays + if f.hit then 0 else 1)],
          responses := s.responses + [Response(f.parent, f.id, user, f.readAt)])
  }

  function Run(cfg: Config, steps: seq<Step>): Sys {
    if steps == [] then START
    else Next(cfg, Run(cfg, steps[..|steps| - 1]), steps[|steps| - 1])
  }

  // ---- What every interleaving keeps

  /** Tokens descend from logins: parent and child share user and login, and ids grow. */
  predicate BirthOk(s: Sys, id: TokenId)
    requires id in s.births
  {
    var b := s.births[id];
    && id < s.nextId && b.root in s.births && b.root <= id
    && s.births[b.root].root == b.root && s.births[b.root].parent == None && s.births[b.root].user == b.user
    && match b.parent
       case None => b.root == id
       case Some(p) => p in s.rows && p in s.births && p < id && s.births[p].user == b.user && s.births[p].root == b.root
  }

  /** A row belongs to a generated token; its successor, if any, was exchanged for it. */
  predicate RowOk(s: Sys, id: TokenId)
    requires id in s.rows
  {
    && id in s.births && s.rows[id].user == s.births[id].user
    && (s.rows[id].revokedAt.Some? ==> s.rows[id].revokedAt.value < s.tick)
    && match s.rows[id].replacedBy
       case None => true
       case Some(n) => s.rows[id].revokedAt.Some? && n in s.births && s.births[n].parent == Some(id)
  }

  predicate FlightOk(s: Sys, pid: int)
    requires pid in s.flights
  {
    match s.flights[pid]
    case LoggingIn(id) => id in s.births && s.births[id].parent == None && id !in s.rows
    case Accepted(p, readAt) => ReadOk(s, p, readAt)
    case Minted(p, id, readAt) => ReadOk(s, p, readAt) && FreshFor(s, p, id) && s.rows[p].replacedBy != Some(id)
    case Rotated(p, id, readAt, hit) =>
      ReadOk(s, p, readAt) && FreshFor(s, p, id) && s.rows[p].revokedAt.Some?
      && (hit <==> s.rows[p].replacedBy == Some(id))
  }

  /** The token that was read has a row, and was not revoked when it was read. */
  predicate ReadOk(s: Sys, p: TokenId, readAt: nat) {
    p in s.rows && p in s.births && readAt < s.tick
    && (s.rows[p].revokedAt.Some? ==> readAt < s.rows[p].revokedAt.value)
  }

  predicate FreshFor(s: Sys, p: TokenId, id: TokenId) {
    id in s.births && s.births[id].parent == Some(p) && id !in s.rows
  }

  predicate SameToken(f: Flight, g: Flight) {
    !f.Accepted? && !g.Accepted? && f.id == g.id
  }

  /** No two handlers carry the same new token. */
  predicate OwnTokens(s: Sys) {
    forall p, q :: p in s.flights && q in s.flights && SameToken(s.flights[p], s.flights[q]) ==> p == q
  }

  predicate ResponseOk(s: Sys, r: Response) {
    && r.parent in s.rows && s.rows[r.parent].revokedAt.Some? && r.readAt < s.rows[r.parent].revokedAt.value
    && r.id in s.births && s.births[r.id].parent == Some(r.parent)
    && r.id in s.rows && s.rows[r.id].user == r.user
    && r.user == s.births[r.id].user
  }

  predicate Inv(s: Sys) {
    && (forall id :: id in s.births ==> BirthOk(s, id))
    && (forall id :: id in s.rows ==> RowOk(s, id))
    && (forall pid :: pid in s.flights ==> FlightOk(s, pid))
    && OwnTokens(s)
    && (forall r :: r in s.responses ==> ResponseOk(s, r))
  }

  /** Rows and handlers know only generated tokens, and the next id is new. */
  predicate Known(s: Sys) {
    && (forall id :: id in s.births ==> id < s.nextId)
    && (forall id :: id in s.rows ==> id in s.births)
    && (forall pid :: pid in s.flights && !s.flights[pid].Accepted? ==> s.flights[pid].id in s.births)
  }

  lemma InvKnown(s: Sys)
    requires Inv(s)
    ensures Known(s)
  {
    forall id | id in s.births
      ensures id < s.nextId
    {
      assert BirthOk(s, id);
    }
    forall id | id in s.rows
      ensures id in s.births
    {
      assert RowOk(s, id);
    }
    forall pid | pid in s.flights && !s.flights[pid].Accepted?
      ensures s.flights[pid].id in s.births
    {
      assert FlightOk(s, pid);
    }
  }

  /** A row is never removed, and changes at most once: when it is revoked. That one write sets
      `revoked_at` and `replaced_by` together and nothing else. */
  lemma RowKept(cfg: Config, s: Sys, step: Step, id: TokenId)
    requires forall pid :: pid in s.flights ==> FlightOk(s, pid)
    requires id in s.rows
    ensures var rows := Next(cfg, s, step).rows;
      && id in rows
      && (rows[id] == s.rows[id] ||
          (s.rows[id].revokedAt == None
           && rows[id] == s.rows[id].(revokedAt := Some(s.tick), replacedBy := rows[id].replacedBy)))
  {
  }

  lemma BirthKept(cfg: Config, s: Sys, step: Step, id: TokenId)
    requires Known(s) && id in s.births && BirthOk(s, id)
    ensures id in Next(cfg, s, step).births && BirthOk(Next(cfg, s, step), id)
  {
  }

  lemma BirthStep(cfg: Config, s: Sys, step: Step, id: TokenId)
    requires Known(s) && id in Next(cfg, s, step).births
    requires forall i :: i in s.births ==> BirthOk(s, i)
    requires forall i :: i in s.rows ==> RowOk(s, i)
    ensures BirthOk(Next(cfg, s, step), id)
  {
    if id in s.births {
      BirthKept(cfg, s, step, id);
    } else if step.RefreshMint? {
      var p := s.flights[step.pid].parent;
      assert BirthOk(s, p) && RowOk(s, p);
    }
  }

  lemma RowStep(cfg: Config, s: Sys, step: Step, id: TokenId)
    requires Known(s) && id in Next(cfg, s, step).rows
    requires id in s.rows ==> RowOk(s, id)
    requires forall pid :: pid in s.flights ==> FlightOk(s, pid)
    ensures RowOk(Next(cfg, s, step), id)
  {
  }

  lemma FlightStep(cfg: Config, s: Sys, step: Step, pid: int)
    requires Known(s) && OwnTokens(s) && pid in Next(cfg, s, step).flights
    requires forall q :: q in s.flights ==> FlightOk(s, q)
    requires forall i :: i in s.rows ==> RowOk(s, i)
    ensures FlightOk(Next(cfg, s, step), pid)
  {
    if pid in s.flights {
      assert FlightOk(s, pid);
      if Next(cfg, s, step).flights[pid] == s.flights[pid] {
        FlightKept(cfg, s, step, pid);
      } else {
        FlightMoves(cfg, s, step, pid);
      }
    }
  }

  /** A refresh that takes its next step. */
  lemma FlightMoves(cfg: Config, s: Sys, step: Step, pid: int)
    requires Known(s) && pid in s.flights && FlightOk(s, pid)
    requires forall i :: i in s.rows ==> RowOk(s, i)
    requires pid in Next(cfg, s, step).flights && Next(cfg, s, step).flights[pid] != s.flights[pid]
    ensures FlightOk(Next(cfg, s, step), pid)
  {
    assert s.flights[pid].Accepted? || s.flights[pid].Minted?;
    assert RowOk(s, s.flights[pid].parent);
  }

  /** A handler that waits while others take steps. */
  lemma FlightKept(cfg: Config, s: Sys, step: Step, pid: int)
    requires Known(s) && OwnTokens(s) && pid in s.flights
    requires forall q :: q in s.flights ==> FlightOk(s, q)
    requires pid in Next(cfg, s, step).flights && Next(cfg, s, step).flights[pid] == s.flights[pid]
    ensures FlightOk(Next(cfg, s, step), pid)
  {
    var f, s' := s.flights[pid], Next(cfg, s, step);
    assert FlightOk(s, pid);
    if !f.Accepted? {
      NewTokenStays(cfg, s, step, pid);
    }
    if !f.LoggingIn? {
      RowKept(cfg, s, step, f.parent);
      assert f.parent in s'.births;
      if f.Minted? {
        NotSucceeded(cfg, s, step, pid);
      }
    }
  }

  /** Nobody else inserts the row of a handler's new token. */
  lemma NewTokenStays(cfg: Config, s: Sys, step: Step, pid: int)
    requires Known(s) && OwnTokens(s) && pid in s.flights && !s.flights[pid].Accepted?
    requires s.flights[pid].id in s.births && s.flights[pid].id !in s.rows
    requires pid in Next(cfg, s, step).flights && Next(cfg, s, step).flights[pid] == s.flights[pid]
    ensures var s', id := Next(cfg, s, step), s.flights[pid].id;
      id in s'.births && s'.births[id] == s.births[id] && id !in s'.rows
  {
  }

  /** Nobody else makes a handler's new token the successor of a row. */
  lemma NotSucceeded(cfg: Config, s: Sys, step: Step, pid: int)
    requires OwnTokens(s) && pid in s.flights && s.flights[pid].Minted?
    requires var f := s.flights[pid]; f.parent in s.rows && s.rows[f.parent].replacedBy != Some(f.id)
    requires pid in Next(cfg, s, step).flights && Next(cfg, s, step).flights[pid] == s.flights[pid]
    ensures var s', f := Next(cfg, s, step), s.flights[pid];
      f.parent in s'.rows ==> s'.rows[f.parent].replacedBy != Some(f.id)
  {
  }

  lemma OwnStep(cfg: Config, s: Sys, step: Step)
    requires Inv(s)
    ensures OwnTokens(Next(cfg, s, step))
  {
    forall p | p in s.flights && !s.flights[p].Accepted?
      ensures s.flights[p].id < s.nextId
    {
      assert FlightOk(s, p);
      assert BirthOk(s, s.flights[p].id);
    }
  }

  lemma ResponseStep(cfg: Config, s: Sys, step: Step, r: Response)
    requires Known(s) && r in Next(cfg, s, step).responses
    requires forall q :: q in s.flights ==> FlightOk(s, q)
    requires r in s.responses ==> ResponseOk(s, r)
    requires r.id in s.births ==> BirthOk(s, r.id)
    ensures ResponseOk(Next(cfg, s, step), r)
  {
    if r in s.responses {
      RowKept(cfg, s, step, r.parent);
      RowKept(cfg, s, step, r.id);
    } else {
      assert FlightOk(s, step.pid);
    }
  }

  lemma InvStep(cfg: Config, s: Sys, step: Step)
    requires Inv(s)
    ensures Inv(Next(cfg, s, step))
  {
    var s' := Next(cfg, s, step);
    InvKnown(s);
    forall id | id in s'.births
      ensures BirthOk(s', id)
    {
      BirthStep(cfg, s, step, id);
    }
    forall id | id in s'.rows
      ensures RowOk(s', id)
    {
      RowStep(cfg, s, step, id);
    }
    forall pid | pid in s'.flights
      ensures FlightOk(s', pid)
    {
      FlightStep(cfg, s, step, pid);
    }
    OwnStep(cfg, s, step);
    forall r | r in s'.responses
      ensures ResponseOk(s', r)
    {
      ResponseStep(cfg, s, step, r);
    }
  }

  lemma {:induction false} InvRun(cfg: Config, steps: seq<Step>)
    ensures Inv(Run(cfg, steps))
  {
    if steps != [] {
      InvRun(cfg, steps[..|steps| - 1]);
      InvStep(cfg, Run(cfg, steps[..|steps| - 1]), steps[|steps| - 1]);
    }
  }

  // ---- Conservation of live tokens

  /** The unrevoked rows that descend from login `f`. */
  function Live(s: Sys, f: TokenId): set<TokenId> {
    set id | id in s.rows && Root(s, id) == f && s.rows[id].revokedAt == None
  }

  /** Refreshes of that login between their revocation and their insert. */
  function Waiting(s: Sys, f: TokenId): set<int> {
    set pid | pid in s.flights && s.flights[pid].Rotated? && Root(s, s.flights[pid].id) == f
  }

  predicate Ledger(s: Sys, f: TokenId) {
    var b := Book(s, f);
    && |Live(s, f)| == b.logins + b.inserts - b.rotated - b.loggedOut
    && b.inserts + |Waiting(s, f)| <= b.rotated + b.missed
    && b.logins == if IsLogin(s, f) then 1 else 0
  }

  predicate IsLogin(s: Sys, f: TokenId) {
    f in s.rows && f in s.births && s.births[f].parent == None
  }

  lemma LiveInsert(s: Sys, s': Sys, id: TokenId, user: int, expiresAt: int, f: TokenId)
    requires Known(s) && id !in s.rows && s'.births == s.births && s'.rows == InsertRow(s.rows, id, user, expiresAt)
    ensures |Live(s', f)| == |Live(s, f)| + if Root(s, id) == f then 1 else 0
  {
    SameNats(Live(s', f), Live(s, f) + if Root(s, id) == f then {id} else {});
  }

  lemma LiveRevoke(s: Sys, s': Sys, id: TokenId, next: Option<TokenId>, f: TokenId)
    requires Known(s) && s'.births == s.births && s'.rows == RevokeRow(s.rows, id, next, s.tick)
    ensures |Live(s', f)| == |Live(s, f)| - if Revocable(s.rows, id) && Root(s, id) == f then 1 else 0
  {
    if Revocable(s.rows, id) && Root(s, id) == f {
      assert id in Live(s, f);
      SameNats(Live(s', f), Live(s, f) - {id});
    } else {
      SameNats(Live(s', f), Live(s, f));
    }
  }

  lemma LiveSame(s: Sys, s': Sys, f: TokenId)
    requires Known(s) && s'.rows == s.rows
    requires BirthsKept(s, s')
    ensures Live(s', f) == Live(s, f)
  {
    SameNats(Live(s', f), Live(s, f));
  }

  lemma SameNats(a: set<nat>, b: set<nat>)
    requires forall x :: x in a <==> x in b
    ensures a == b
  {
    forall x
      ensures x in a <==> x in b
    {
    }
  }

  /** What becomes of the waiting refreshes when only handler `pid` moves. */
  lemma WaitingMoves(s: Sys, s': Sys, pid: int, f: TokenId)
    requires Known(s) && BirthsKept(s, s')
    requires forall q :: q != pid ==> (q in s'.flights <==> q in s.flights)
    requires forall q :: q != pid && q in s.flights ==> s'.flights[q] == s.flights[q]
    ensures |Waiting(s', f)| - |Waiting(s, f)| ==
      (if pid in Waiting(s', f) then 1 else 0) - (if pid in Waiting(s, f) then 1 else 0)
  {
    SameSet(Waiting(s', f) - {pid}, Waiting(s, f) - {pid});
    SizeWithout(Waiting(s, f), pid);
    SizeWithout(Waiting(s', f), pid);
  }

  lemma SizeWithout(a: set<int>, x: int)
    ensures |a| == |a - {x}| + if x in a then 1 else 0
  {
    if x in a {
      SameSet(a, (a - {x}) + {x});
    } else {
      SameSet(a, a - {x});
    }
  }

  predicate BirthsKept(s: Sys, s': Sys) {
    forall id :: id in s.births ==> id in s'.births && s'.births[id] == s.births[id]
  }

  lemma LedgerLogin(cfg: Config, s: Sys, pid: int, f: TokenId)
    requires Known(s) && Ledger(s, f)
    requires pid in s.flights && s.flights[pid].LoggingIn? && FlightOk(s, pid) && BirthOk(s, s.flights[pid].id)
    ensures Ledger(Next(cfg, s, LoginInsert(pid)), f)
  {
    var s', id := Next(cfg, s, LoginInsert(pid)), s.flights[pid].id;
    WaitingMoves(s, s', pid, f);
    LiveInsert(s, s', id, s.births[id].user, s.clock + cfg.ttl, f);
  }

  lemma LedgerInsert(cfg: Config, s: Sys, pid: int, f: TokenId)
    requires Known(s) && Ledger(s, f)
    requires pid in s.flights && s.flights[pid].Rotated? && FlightOk(s, pid) && BirthOk(s, s.flights[pid].id)
    ensures Ledger(Next(cfg, s, RefreshInsert(pid)), f)
  {
    var s', id := Next(cfg, s, RefreshInsert(pid)), s.flights[pid].id;
    WaitingMoves(s, s', pid, f);
    LiveInsert(s, s', id, s.births[id].user, s.clock + cfg.ttl, f);
  }

  lemma LedgerRevoke(cfg: Config, s: Sys, pid: int, f: TokenId)
    requires Known(s) && Ledger(s, f)
    requires pid in s.flights && s.flights[pid].Minted? && FlightOk(s, pid) && BirthOk(s, s.flights[pid].id)
    ensures Ledger(Next(cfg, s, RefreshRevoke(pid)), f)
  {
    var s', t := Next(cfg, s, RefreshRevoke(pid)), s.flights[pid];
    WaitingMoves(s, s', pid, f);
    LiveRevoke(s, s', t.parent, Some(t.id), f);
  }

  lemma LedgerLogout(cfg: Config, s: Sys, id: TokenId, f: TokenId)
    requires Known(s) && Ledger(s, f)
    requires MayStart(cfg, s) && Revocable(s.rows, id)
    ensures Ledger(Next(cfg, s, Logout(id)), f)
  {
    var s' := Next(cfg, s, Logout(id));
    LiveRevoke(s, s', id, None, f);
    WaitingMoves(s, s', 0, f);
  }

  /** Steps that touch no row can only start, advance or drop one handler. */
  lemma LedgerQuiet(s: Sys, s': Sys, pid: int, f: TokenId)
    requires Known(s) && Ledger(s, f)
    requires s'.rows == s.rows && s'.books == s.books && BirthsKept(s, s')
    requires forall q :: q != pid ==> (q in s'.flights <==> q in s.flights)
    requires forall q :: q != pid && q in s.flights ==> s'.flights[q] == s.flights[q]
    requires pid in s'.flights && s'.flights[pid].Rotated? ==> pid in s.flights && s'.flights[pid] == s.flights[pid]
    ensures Ledger(s', f)
  {
    LiveSame(s, s', f);
    WaitingMoves(s, s', pid, f);
  }

  /** A step that only starts, advances or drops one handler. */
  lemma OneHandler(cfg: Config, s: Sys, step: Step)
    requires Known(s)
    requires step.LoginMint? || step.RefreshRead? || step.RefreshMint? || step.Crash?
    ensures var s' := Next(cfg, s, step);
      && s'.rows == s.rows && s'.books == s.books && BirthsKept(s, s')
      && (forall q :: q != step.pid ==> (q in s'.flights <==> q in s.flights))
      && (forall q :: q != step.pid && q in s.flights ==> s'.flights[q] == s.flights[q])
      && (step.pid in s'.flights && s'.flights[step.pid].Rotated? ==>
            step.pid in s.flights && s'.flights[step.pid] == s.flights[step.pid])
  {
  }

  lemma LedgerStart(cfg: Config, s: Sys, step: Step, f: TokenId)
    requires Known(s) && Ledger(s, f)
    requires step.LoginMint? || step.RefreshRead? || step.RefreshMint? || step.Crash?
    ensures Ledger(Next(cfg, s, step), f)
  {
    OneHandler(cfg, s, step);
    LedgerQuiet(s, Next(cfg, s, step), step.pid, f);
  }

  lemma LedgerIdle(s: Sys, s': Sys, f: TokenId)
    requires Known(s) && Ledger(s, f)
    requires s'.rows == s.rows && s'.books == s.books && s'.births == s.births && s'.flights == s.flights
    ensures Ledger(s', f)
  {
    LedgerQuiet(s, s', 0, f);
  }

  lemma LedgerStep(cfg: Config, s: Sys, step: Step, f: TokenId)
    requires Inv(s) && Ledger(s, f)
    ensures Ledger(Next(cfg, s, step), f)
  {
    InvKnown(s);
    if Act(cfg, s, step) == s {
      LedgerIdle(s, Next(cfg, s, step), f);
    } else if step.LoginMint? || step.RefreshRead? || step.RefreshMint? || step.Crash? {
      LedgerStart(cfg, s, step, f);
    } else {
      LedgerWrite(cfg, s, step, f);
    }
  }

  lemma LedgerWrite(cfg: Config, s: Sys, step: Step, f: TokenId)
    requires Inv(s) && Known(s) && Ledger(s, f) && Act(cfg, s, step) != s
    requires !step.LoginMint? && !step.RefreshRead? && !step.RefreshMint? && !step.Crash?
    ensures Ledger(Next(cfg, s, step), f)
  {
    match step
    case LoginInsert(pid) =>
      assert FlightOk(s, pid) && BirthOk(s, s.flights[pid].id);
      LedgerLogin(cfg, s, pid, f);
    case RefreshInsert(pid) =>
      assert FlightOk(s, pid) && BirthOk(s, s.flights[pid].id);
      LedgerInsert(cfg, s, pid, f);
    case RefreshRevoke(pid) =>
      assert FlightOk(s, pid) && BirthOk(s, s.flights[pid].id);
      LedgerRevoke(cfg, s, pid, f);
    case Logout(id) => LedgerLogout(cfg, s, id, f);
    case _ => LedgerIdle(s, Next(cfg, s, step), f);
  }

  lemma {:induction false} LedgerRun(cfg: Config, steps: seq<Step>, f: TokenId)
    ensures Inv(Run(cfg, steps)) && Ledger(Run(cfg, steps), f)
  {
    InvRun(cfg, steps);
    if steps == [] {
      assert Live(START, f) == {} && Waiting(START, f) == {};
    } else {
      LedgerRun(cfg, steps[..|steps| - 1], f);
      LedgerStep(cfg, Run(cfg, steps[..|steps| - 1]), steps[|steps| - 1], f);
    }
  }

  /** In every interleaving, with crashes anywhere, a login's live tokens number one plus the refresh
      inserts minus the effective revocations; so each token beyond the first is owed to a refresh
      whose revoke found the row already revoked. */
  lemma Conservation(cfg: Config, steps: seq<Step>, login: TokenId)
    requires IsLogin(Run(cfg, steps), login)
    ensures var s := Run(cfg, steps);
      var b := Book(s, login);
      && |Live(s, login)| == 1 + b.inserts - b.rotated - b.loggedOut
      && |Live(s, login)| <= 1 + b.missed
  {
    LedgerRun(cfg, steps, login);
  }
}
