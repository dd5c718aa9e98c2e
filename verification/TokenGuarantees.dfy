/** What the token handlers guarantee: for every interleaving, and, more strongly, for requests
    that do not overlap. */
module TokenGuarantees {
  import opened Wrappers
  import opened Sets
  import opened TokenRotation
  import opened TokenChains

  // ---- Every interleaving

  /** `replaced_by` comes only with a revocation, points to a token generated later and exchanged
      for no other one, and a successor row that exists belongs to the same user. */
  lemma SuccessorLinks(cfg: Config, steps: seq<Step>, id: TokenId, other: TokenId)
    requires var rows := Run(cfg, steps).rows; id in rows && other in rows && rows[id].replacedBy.Some?
    ensures var rows, n := Run(cfg, steps).rows, Run(cfg, steps).rows[id].replacedBy.value;
      && rows[id].revokedAt.Some?
      && id < n < Run(cfg, steps).nextId
      && (rows[other].replacedBy == Some(n) ==> other == id)
      && (n in rows ==> rows[n].user == rows[id].user)
  {
    var s := Run(cfg, steps);
    InvRun(cfg, steps);
    assert RowOk(s, id) && RowOk(s, other);
    var n := s.rows[id].replacedBy.value;
    assert BirthOk(s, n);
    assert n in s.rows ==> RowOk(s, n);
  }

  lemma RevokedStays(cfg: Config, s: Sys, step: Step, id: TokenId)
    requires Inv(s) && id in s.rows && s.rows[id].revokedAt.Some?
    ensures id in Next(cfg, s, step).rows && Next(cfg, s, step).rows[id] == s.rows[id]
  {
    RowKept(cfg, s, step, id);
  }

  /** Once revoked, a row never changes: the first revocation is the only one. */
  lemma {:induction false} RevokedForever(cfg: Config, steps: seq<Step>, more: seq<Step>, id: TokenId)
    requires var rows := Run(cfg, steps).rows; id in rows && rows[id].revokedAt.Some?
    ensures id in Run(cfg, steps + more).rows
    ensures Run(cfg, steps + more).rows[id] == Run(cfg, steps).rows[id]
  {
    if more == [] {
      assert steps + more == steps;
    } else {
      var init := more[..|more| - 1];
      RevokedForever(cfg, steps, init, id);
      InvRun(cfg, steps + init);
      RevokedStays(cfg, Run(cfg, steps + init), more[|more| - 1], id);
      assert (steps + more)[..|steps + more| - 1] == steps + init && (steps + more)[|steps + more| - 1] == more[|more| - 1];
    }
  }

  /** A refresh answers with tokens only if it read the presented token's row before that token's
      revocation, and the tokens carry the user of the login they descend from. */
  lemma AnsweredRefresh(cfg: Config, steps: seq<Step>, r: Response)
    requires r in Run(cfg, steps).responses
    ensures var s := Run(cfg, steps);
      && r.parent in s.rows && s.rows[r.parent].revokedAt.Some?
      && r.readAt < s.rows[r.parent].revokedAt.value
      && r.id in s.births && s.births[r.id].parent == Some(r.parent)
      && s.births[r.id].root in s.births && s.births[s.births[r.id].root].parent == None
      && r.user == s.births[s.births[r.id].root].user
  {
    var s := Run(cfg, steps);
    InvRun(cfg, steps);
    assert ResponseOk(s, r);
    assert BirthOk(s, r.id);
  }

  /** An uninterrupted refresh rotates: the presented row is revoked in favour of a new row of the
      same user, nothing else changes, and the new tokens go out. */
  lemma RefreshAlone(cfg: Config, s: Sys, pid: int, id: TokenId, user: int)
    requires s.flights == map[] && Accepts(s.rows, id, user, s.clock) && user in s.active && id in s.births
    ensures var s' := Next(cfg, Next(cfg, Next(cfg, Next(cfg, s,
        RefreshRead(pid, id, user)), RefreshMint(pid)), RefreshRevoke(pid)), RefreshInsert(pid));
      && s'.rows == Refreshed(s.rows, id, s.nextId, s.clock + cfg.ttl, s.tick + 2)
      && s'.responses == s.responses + [Response(id, s.nextId, user, s.tick)]
  {
    RefreshStarts(cfg, s, pid, id, user);
    RefreshEnds(cfg, Next(cfg, Next(cfg, s, RefreshRead(pid, id, user)), RefreshMint(pid)), pid, id, user);
  }

  lemma RefreshStarts(cfg: Config, s: Sys, pid: int, id: TokenId, user: int)
    requires s.flights == map[] && Accepts(s.rows, id, user, s.clock) && user in s.active && id in s.births
    ensures var s2 := Next(cfg, Next(cfg, s, RefreshRead(pid, id, user)), RefreshMint(pid));
      && s2.rows == s.rows && s2.clock == s.clock && s2.tick == s.tick + 2 && s2.responses == s.responses
      && pid in s2.flights && s2.flights[pid] == Minted(id, s.nextId, s.tick)
      && s.nextId in s2.births && s2.births[s.nextId] == Birth(user, s.births[id].root, Some(id))
  {
  }

  lemma RefreshEnds(cfg: Config, s: Sys, pid: int, id: TokenId, user: int)
    requires pid in s.flights && s.flights[pid].Minted? && s.flights[pid].parent == id
    requires Accepts(s.rows, id, user, s.clock)
    requires var f := s.flights[pid]; f.id in s.births && s.births[f.id].user == user
    ensures var f, s' := s.flights[pid], Next(cfg, Next(cfg, s, RefreshRevoke(pid)), RefreshInsert(pid));
      && s'.rows == Refreshed(s.rows, id, f.id, s.clock + cfg.ttl, s.tick)
      && s'.responses == s.responses + [Response(id, f.id, user, f.readAt)]
  {
  }

  // ---- Requests that do not overlap

  /** The only running handler works on a token that nobody else has touched since its read. */
  predicate SerialFlight(s: Sys, pid: int)
    requires pid in s.flights
  {
    match s.flights[pid]
    case LoggingIn(_) => true
    case Accepted(p, _) => Revocable(s.rows, p)
    case Minted(p, _, _) => Revocable(s.rows, p)
    case Rotated(p, id, _, _) => p in s.rows && s.rows[p].replacedBy == Some(id)
  }

  predicate SerialInv(s: Sys) {
    && Alone(s)
    && (forall pid :: pid in s.flights ==> SerialFlight(s, pid))
    && (forall f :: f in s.books ==> s.books[f].missed == 0)
  }

  predicate Alone(s: Sys) {
    forall p, q :: p in s.flights && q in s.flights ==> p == q
  }

  lemma AloneStep(cfg: Config, s: Sys, step: Step)
    requires cfg.serial && Alone(s)
    ensures Alone(Next(cfg, s, step))
  {
  }

  lemma SerialFlightStep(cfg: Config, s: Sys, step: Step, pid: int)
    requires cfg.serial && Alone(s) && pid in Next(cfg, s, step).flights
    requires pid in s.flights ==> FlightOk(s, pid) && SerialFlight(s, pid)
    ensures SerialFlight(Next(cfg, s, step), pid)
  {
  }

  lemma NoMissStep(cfg: Config, s: Sys, step: Step, f: TokenId)
    requires forall pid :: pid in s.flights ==> SerialFlight(s, pid)
    requires f in s.books ==> s.books[f].missed == 0
    ensures f in Next(cfg, s, step).books ==> Next(cfg, s, step).books[f].missed == 0
  {
  }

  lemma SerialStep(cfg: Config, s: Sys, step: Step)
    requires cfg.serial && Inv(s) && SerialInv(s)
    ensures SerialInv(Next(cfg, s, step))
  {
    var s' := Next(cfg, s, step);
    AloneStep(cfg, s, step);
    forall pid | pid in s'.flights
      ensures SerialFlight(s', pid)
    {
      SerialFlightStep(cfg, s, step, pid);
    }
    forall f | f in s'.books
      ensures s'.books[f].missed == 0
    {
      NoMissStep(cfg, s, step, f);
    }
  }

  lemma {:induction false} SerialRun(cfg: Config, steps: seq<Step>)
    requires cfg.serial
    ensures Inv(Run(cfg, steps)) && SerialInv(Run(cfg, steps))
  {
    InvRun(cfg, steps);
    if steps != [] {
      SerialRun(cfg, steps[..|steps| - 1]);
      SerialStep(cfg, Run(cfg, steps[..|steps| - 1]), steps[|steps| - 1]);
    }
  }

  /** Without overlap no refresh ever finds its token already revoked. */
  lemma NoRevokedTokenRefreshed(cfg: Config, steps: seq<Step>, login: TokenId)
    requires cfg.serial
    ensures Book(Run(cfg, steps), login).missed == 0
  {
    SerialRun(cfg, steps);
  }

  /** So without overlap the rows of each login are one chain, and only its end can be live. */
  lemma SerialChain(cfg: Config, steps: seq<Step>, login: TokenId)
    requires cfg.serial && IsLogin(Run(cfg, steps), login)
    ensures IsOneChain(Run(cfg, steps), login) && |Live(Run(cfg, steps), login)| <= 1
  {
    NoRevokedTokenRefreshed(cfg, steps, login);
    NoMissOneChain(cfg, steps, login);
  }

  /** Two refreshes of one token that both read its row before either revokes it. */
  const OVERLAP: seq<Step> :=
    [SetActive(1, true), LoginMint(0, 1), LoginInsert(0), RefreshRead(1, 0, 1), RefreshRead(2, 0, 1),
     RefreshMint(1), RefreshMint(2), RefreshRevoke(1), RefreshRevoke(2), RefreshInsert(1), RefreshInsert(2)]

  lemma RunPrefix(cfg: Config, steps: seq<Step>, n: nat)
    requires n < |steps|
    ensures Run(cfg, steps[..n + 1]) == Next(cfg, Run(cfg, steps[..n]), steps[n])
  {
    assert steps[..n + 1][..n] == steps[..n];
  }

  predicate HasFlight(s: Sys, pid: int, f: Flight) {
    pid in s.flights && s.flights[pid] == f
  }

  predicate HasBirth(s: Sys, id: TokenId, parent: Option<TokenId>) {
    id in s.births && s.births[id] == Birth(1, 0, parent)
  }

  lemma OverlapLogin(cfg: Config)
    requires cfg.ttl >= 0
    ensures LoggedIn(Run(cfg, OVERLAP[..3]), 3) && Run(cfg, OVERLAP[..3]).flights == map[]
  {
    RunPrefix(cfg, OVERLAP, 0);
    RunPrefix(cfg, OVERLAP, 1);
    RunPrefix(cfg, OVERLAP, 2);
  }

  /** User 1 has logged in with token 0. */
  predicate LoggedIn(s: Sys, tick: nat) {
    Accepts(s.rows, 0, 1, s.clock) && HasBirth(s, 0, None) && s.nextId == 1 && s.active == {1} && s.tick == tick
  }

  lemma ReadAgain(cfg: Config, s: Sys, pid: int, tick: nat)
    requires !cfg.serial && LoggedIn(s, tick) && pid !in s.flights
    ensures var s' := Next(cfg, s, RefreshRead(pid, 0, 1));
      LoggedIn(s', tick + 1) && s'.flights == s.flights[pid := Accepted(0, tick)]
  {
  }

  /** Both refreshes have read row 0. */
  lemma OverlapReads(cfg: Config)
    requires !cfg.serial && cfg.ttl >= 0
    ensures var s := Run(cfg, OVERLAP[..5]);
      LoggedIn(s, 5) && HasFlight(s, 1, Accepted(0, 3)) && HasFlight(s, 2, Accepted(0, 4))
  {
    OverlapLogin(cfg);
    RunPrefix(cfg, OVERLAP, 3);
    ReadAgain(cfg, Run(cfg, OVERLAP[..3]), 1, 3);
    RunPrefix(cfg, OVERLAP, 4);
    ReadAgain(cfg, Run(cfg, OVERLAP[..4]), 2, 4);
  }

  /** Handlers 1 and 2 at work on row 0 with tokens 1 and 2. */
  predicate Both(s: Sys, revoked: bool, f: Flight, g: Flight) {
    && 0 in s.rows && s.rows[0].revokedAt.Some? == revoked
    && HasBirth(s, 0, None) && HasBirth(s, 1, Some(0)) && HasBirth(s, 2, Some(0))
    && HasFlight(s, 1, f) && HasFlight(s, 2, g)
  }

  lemma FirstMint(cfg: Config, s: Sys)
    requires Accepts(s.rows, 0, 1, s.clock) && HasBirth(s, 0, None) && s.nextId == 1 && s.active == {1}
    requires HasFlight(s, 1, Accepted(0, 3)) && HasFlight(s, 2, Accepted(0, 4))
    ensures var s' := Next(cfg, s, RefreshMint(1));
      && s'.rows == s.rows && s'.nextId == 2 && s'.active == {1} && HasBirth(s', 0, None) && HasBirth(s', 1, Some(0))
      && HasFlight(s', 1, Minted(0, 1, 3)) && HasFlight(s', 2, Accepted(0, 4))
  {
  }

  lemma SecondMint(cfg: Config, s: Sys)
    requires 0 in s.rows && s.rows[0].user == 1 && s.rows[0].revokedAt == None && s.nextId == 2 && s.active == {1}
    requires HasBirth(s, 0, None) && HasBirth(s, 1, Some(0))
    requires HasFlight(s, 1, Minted(0, 1, 3)) && HasFlight(s, 2, Accepted(0, 4))
    ensures Both(Next(cfg, s, RefreshMint(2)), false, Minted(0, 1, 3), Minted(0, 2, 4))
  {
  }

  lemma FirstRevoke(cfg: Config, s: Sys)
    requires Both(s, false, Minted(0, 1, 3), Minted(0, 2, 4))
    ensures Both(Next(cfg, s, RefreshRevoke(1)), true, Rotated(0, 1, 3, true), Minted(0, 2, 4))
  {
  }

  lemma SecondRevoke(cfg: Config, s: Sys)
    requires Both(s, true, Rotated(0, 1, 3, true), Minted(0, 2, 4))
    ensures Both(Next(cfg, s, RefreshRevoke(2)), true, Rotated(0, 1, 3, true), Rotated(0, 2, 4, false))
  {
  }

  /** Both have signed their new tokens. */
  lemma OverlapMints(cfg: Config)
    requires !cfg.serial && cfg.ttl >= 0
    ensures Both(Run(cfg, OVERLAP[..7]), false, Minted(0, 1, 3), Minted(0, 2, 4))
  {
    OverlapReads(cfg);
    RunPrefix(cfg, OVERLAP, 5);
    FirstMint(cfg, Run(cfg, OVERLAP[..5]));
    RunPrefix(cfg, OVERLAP, 6);
    SecondMint(cfg, Run(cfg, OVERLAP[..6]));
  }

  /** Both have run their revocation; the second one matched no row. */
  lemma OverlapRevokes(cfg: Config)
    requires !cfg.serial && cfg.ttl >= 0
    ensures Both(Run(cfg, OVERLAP[..9]), true, Rotated(0, 1, 3, true), Rotated(0, 2, 4, false))
  {
    OverlapMints(cfg);
    RunPrefix(cfg, OVERLAP, 7);
    FirstRevoke(cfg, Run(cfg, OVERLAP[..7]));
    RunPrefix(cfg, OVERLAP, 8);
    SecondRevoke(cfg, Run(cfg, OVERLAP[..8]));
  }

  lemma BothInsert(cfg: Config, s: Sys)
    requires Both(s, true, Rotated(0, 1, 3, true), Rotated(0, 2, 4, false))
    ensures var s' := Next(cfg, Next(cfg, s, RefreshInsert(1)), RefreshInsert(2));
      IsLogin(s', 0) && 1 in Live(s', 0) && 2 in Live(s', 0)
  {
  }

  lemma OverlapRefreshes(cfg: Config)
    requires !cfg.serial && cfg.ttl >= 0
    ensures var s := Run(cfg, OVERLAP);
      IsLogin(s, 0) && 1 in Live(s, 0) && 2 in Live(s, 0)
  {
    OverlapRevokes(cfg);
    RunPrefix(cfg, OVERLAP, 9);
    RunPrefix(cfg, OVERLAP, 10);
    BothInsert(cfg, Run(cfg, OVERLAP[..9]));
    assert OVERLAP[..11] == OVERLAP;
  }

  ghost predicate OneLiveToken(cfg: Config) {
    forall steps, login :: IsLogin(Run(cfg, steps), login) ==> |Live(Run(cfg, steps), login)| <= 1
  }

  /** A login has at most one live token in every run exactly when requests do not overlap. */
  lemma OneLiveIffSerial(cfg: Config)
    requires cfg.ttl >= 0
    ensures OneLiveToken(cfg) <==> cfg.serial
  {
    if cfg.serial {
      forall steps, login | IsLogin(Run(cfg, steps), login)
        ensures |Live(Run(cfg, steps), login)| <= 1
      {
        SerialChain(cfg, steps, login);
      }
    } else {
      OverlapRefreshes(cfg);
      NatSubsetSize({1, 2}, Live(Run(cfg, OVERLAP), 0));
    }
  }
}
