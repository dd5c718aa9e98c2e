/** How tokens come about, step by step in the run: whose account was active, which row had been read,
    and what a new row holds; and what handlers do that are refused. */
module TokenHistory {
  import opened Wrappers
  import opened TokenRotation

  // ---- One step

  /** A row that a step inserts is live, belongs to the token's user and expires one lifetime later. */
  lemma NewRow(cfg: Config, s: Sys, step: Step, id: TokenId)
    requires Inv(s) && id !in s.rows && id in Next(cfg, s, step).rows
    ensures step.LoginInsert? || step.RefreshInsert?
    ensures id in s.births && Next(cfg, s, step).rows[id] == Row(s.births[id].user, s.clock + cfg.ttl, None, None)
  {
    assert FlightOk(s, step.pid);
  }

  /** An uninterrupted login adds one live row of the user if the user is active, and nothing otherwise. */
  lemma LoginAlone(cfg: Config, s: Sys, pid: int, user: int)
    requires s.flights == map[]
    ensures var s' := Next(cfg, Next(cfg, s, LoginMint(pid, user)), LoginInsert(pid));
      s'.rows == if user in s.active then s.rows[s.nextId := Row(user, s.clock + cfg.ttl, None, None)] else s.rows
  {
  }

  /** Logout revokes an unrevoked row without a successor and leaves all other rows alone. */
  lemma LogoutAlone(cfg: Config, s: Sys, id: TokenId, other: TokenId)
    requires s.flights == map[] && other in s.rows
    ensures var rows := Next(cfg, s, Logout(id)).rows;
      && rows.Keys == s.rows.Keys
      && rows[other] == if other == id && s.rows[id].revokedAt == None
                        then Row(s.rows[id].user, s.rows[id].expiresAt, Some(s.tick), None) else s.rows[other]
  {
  }

  predicate Refused(s: Sys, id: TokenId, user: int) {
    id !in s.rows || s.rows[id].user != user || s.rows[id].revokedAt != None || s.clock > s.rows[id].expiresAt
      || user !in s.active
  }

  /** An uninterrupted refresh of an unknown, foreign, revoked or expired token, or for a user who is not
      active, changes no row and answers with no token. */
  lemma RefusedAlone(cfg: Config, s: Sys, pid: int, id: TokenId, user: int)
    requires s.flights == map[] && Refused(s, id, user)
    ensures var s' := Next(cfg, Next(cfg, Next(cfg, Next(cfg, s,
        RefreshRead(pid, id, user)), RefreshMint(pid)), RefreshRevoke(pid)), RefreshInsert(pid));
      s'.rows == s.rows && s'.responses == s.responses && s'.births == s.births
  {
    var s2 := Next(cfg, Next(cfg, s, RefreshRead(pid, id, user)), RefreshMint(pid));
    RefusedStarts(cfg, s, pid, id, user);
    assert pid !in Next(cfg, s2, RefreshRevoke(pid)).flights;
  }

  lemma RefusedStarts(cfg: Config, s: Sys, pid: int, id: TokenId, user: int)
    requires s.flights == map[] && Refused(s, id, user)
    ensures var s2 := Next(cfg, Next(cfg, s, RefreshRead(pid, id, user)), RefreshMint(pid));
      pid !in s2.flights && s2.rows == s.rows && s2.responses == s.responses && s2.births == s.births
  {
  }

  // ---- Runs

  /** Steps and ticks go together. */
  lemma {:induction false} TickIs(cfg: Config, steps: seq<Step>)
    ensures Run(cfg, steps).tick == |steps|
  {
    if steps != [] {
      TickIs(cfg, steps[..|steps| - 1]);
    }
  }

  /** At step n token `id` was generated for a user who was active then, and had no row. */
  predicate MintedAt(cfg: Config, steps: seq<Step>, n: nat, id: TokenId, user: int)
    requires n < |steps|
  {
    var s := Run(cfg, steps[..n]);
    (steps[n].LoginMint? || steps[n].RefreshMint?) && s.nextId == id && id !in s.rows && user in s.active
  }

  predicate WasMinted(cfg: Config, steps: seq<Step>, id: TokenId, user: int) {
    exists n: nat :: n < |steps| && MintedAt(cfg, steps, n, id, user)
  }

  predicate MintedAfter(cfg: Config, steps: seq<Step>, id: TokenId, user: int, readAt: nat) {
    exists n: nat :: readAt < n < |steps| && MintedAt(cfg, steps, n, id, user)
  }

  /** At step `readAt` a refresh read the live, unexpired row of `id`, which belonged to the claimed user. */
  predicate ReadLive(cfg: Config, steps: seq<Step>, id: TokenId, readAt: nat) {
    && readAt < |steps| && steps[readAt].RefreshRead? && steps[readAt].id == id
    && var s := Run(cfg, steps[..readAt]);
    && id in s.rows && s.rows[id].user == steps[readAt].user
    && s.rows[id].revokedAt == None && s.clock <= s.rows[id].expiresAt
  }

  lemma SamePrefix(steps: seq<Step>, init: seq<Step>, n: nat)
    requires init <= steps && n < |init|
    ensures steps[..n] == init[..n] && steps[n] == init[n]
  {
  }

  lemma WasMintedStays(cfg: Config, init: seq<Step>, steps: seq<Step>, id: TokenId, user: int)
    requires init <= steps && WasMinted(cfg, init, id, user)
    ensures WasMinted(cfg, steps, id, user)
  {
    var n: nat :| n < |init| && MintedAt(cfg, init, n, id, user);
    SamePrefix(steps, init, n);
    assert MintedAt(cfg, steps, n, id, user);
  }

  lemma MintedAfterStays(cfg: Config, init: seq<Step>, steps: seq<Step>, id: TokenId, user: int, readAt: nat)
    requires init <= steps && MintedAfter(cfg, init, id, user, readAt)
    ensures MintedAfter(cfg, steps, id, user, readAt)
  {
    var n: nat :| readAt < n < |init| && MintedAt(cfg, init, n, id, user);
    SamePrefix(steps, init, n);
    assert MintedAt(cfg, steps, n, id, user);
  }

  lemma ReadLiveStays(cfg: Config, init: seq<Step>, steps: seq<Step>, id: TokenId, readAt: nat)
    requires init <= steps && ReadLive(cfg, init, id, readAt)
    ensures ReadLive(cfg, steps, id, readAt)
  {
    SamePrefix(steps, init, readAt);
  }

  /** A step that generates a token does so for an active user. */
  lemma MintNow(cfg: Config, s: Sys, step: Step, id: TokenId)
    requires Inv(s) && Known(s) && id !in s.births && id in Next(cfg, s, step).births
    ensures step.LoginMint? || step.RefreshMint?
    ensures id == s.nextId && id !in s.rows && Next(cfg, s, step).births[id].user in s.active
  {
  }

  lemma BirthStays(cfg: Config, s: Sys, step: Step, id: TokenId)
    requires Known(s) && id in s.births
    ensures id in Next(cfg, s, step).births && Next(cfg, s, step).births[id] == s.births[id]
  {
  }

  /** Every token of every run, a login's or a refresh's, was generated while its user was active; so
      was, in particular, every token that has a row. */
  lemma {:induction false} TokensNeedActive(cfg: Config, steps: seq<Step>, id: TokenId)
    requires id in Run(cfg, steps).births
    ensures WasMinted(cfg, steps, id, Run(cfg, steps).births[id].user)
  {
    var init, last := steps[..|steps| - 1], steps[|steps| - 1];
    var s := Run(cfg, init);
    InvRun(cfg, init);
    InvKnown(s);
    if id in s.births {
      TokensNeedActive(cfg, init, id);
      BirthStays(cfg, s, last, id);
      WasMintedStays(cfg, init, steps, id, s.births[id].user);
    } else {
      MintNow(cfg, s, last, id);
      assert MintedAt(cfg, steps, |init|, id, Run(cfg, steps).births[id].user);
    }
  }

  /** What lies behind a refresh under way. */
  predicate FlightHistory(cfg: Config, steps: seq<Step>, s: Sys, f: Flight) {
    match f
    case LoggingIn(_) => true
    case Accepted(p, readAt) => ReadLive(cfg, steps, p, readAt)
    case Minted(p, id, readAt) => BothHistory(cfg, steps, s, p, id, readAt)
    case Rotated(p, id, readAt, _) => BothHistory(cfg, steps, s, p, id, readAt)
  }

  predicate BothHistory(cfg: Config, steps: seq<Step>, s: Sys, p: TokenId, id: TokenId, readAt: nat) {
    ReadLive(cfg, steps, p, readAt) && id in s.births && MintedAfter(cfg, steps, id, s.births[id].user, readAt)
  }

  lemma BothStays(cfg: Config, init: seq<Step>, steps: seq<Step>, s: Sys, s': Sys, p: TokenId, id: TokenId, readAt: nat)
    requires init <= steps && BothHistory(cfg, init, s, p, id, readAt)
    requires id in s'.births && s'.births[id] == s.births[id]
    ensures BothHistory(cfg, steps, s', p, id, readAt)
  {
    ReadLiveStays(cfg, init, steps, p, readAt);
    MintedAfterStays(cfg, init, steps, id, s.births[id].user, readAt);
  }

  lemma FlightStays(cfg: Config, init: seq<Step>, last: Step, f: Flight)
    requires FlightHistory(cfg, init, Run(cfg, init), f)
    ensures FlightHistory(cfg, init + [last], Next(cfg, Run(cfg, init), last), f)
  {
    var s, steps := Run(cfg, init), init + [last];
    InvRun(cfg, init);
    InvKnown(s);
    match f
    case LoggingIn(_) =>
    case Accepted(p, readAt) => ReadLiveStays(cfg, init, steps, p, readAt);
    case Minted(p, id, readAt) =>
      BirthStays(cfg, s, last, id);
      BothStays(cfg, init, steps, s, Next(cfg, s, last), p, id, readAt);
    case Rotated(p, id, readAt, _) =>
      BirthStays(cfg, s, last, id);
      BothStays(cfg, init, steps, s, Next(cfg, s, last), p, id, readAt);
  }

  /** What a handler that moves now was and becomes. */
  lemma FlightMoves(cfg: Config, s: Sys, last: Step, pid: int)
    requires Inv(s) && Known(s) && pid in Next(cfg, s, last).flights
    requires pid in s.flights ==> Next(cfg, s, last).flights[pid] != s.flights[pid]
    ensures var s' := Next(cfg, s, last);
      match s'.flights[pid]
      case LoggingIn(_) => true
      case Accepted(p, readAt) => last == RefreshRead(pid, p, s.rows[p].user) && readAt == s.tick && Accepts(s.rows, p, s.rows[p].user, s.clock)
      case Minted(p, id, readAt) =>
        pid in s.flights && s.flights[pid] == Accepted(p, readAt) && last == RefreshMint(pid)
        && id == s.nextId && id in s'.births && s'.births[id].user in s.active
      case Rotated(p, id, readAt, _) => pid in s.flights && s.flights[pid] == Minted(p, id, readAt)
  {
    assert pid in s.flights ==> FlightOk(s, pid);
  }

  lemma FlightNow(cfg: Config, init: seq<Step>, last: Step, pid: int)
    requires var s := Run(cfg, init); pid in s.flights ==> FlightHistory(cfg, init, s, s.flights[pid])
    requires pid in Next(cfg, Run(cfg, init), last).flights
    ensures var s' := Next(cfg, Run(cfg, init), last);
      FlightHistory(cfg, init + [last], s', s'.flights[pid])
  {
    var s, steps := Run(cfg, init), init + [last];
    var s' := Next(cfg, s, last);
    InvRun(cfg, init);
    InvKnown(s);
    TickIs(cfg, init);
    assert steps[..|init|] == init && steps[|init|] == last;
    if pid in s.flights && s'.flights[pid] == s.flights[pid] {
      FlightStays(cfg, init, last, s.flights[pid]);
    } else {
      FlightMoves(cfg, s, last, pid);
      match s'.flights[pid]
      case LoggingIn(_) =>
      case Accepted(p, readAt) =>
      case Minted(p, id, readAt) =>
        ReadLiveStays(cfg, init, steps, p, readAt);
        assert MintedAt(cfg, steps, |init|, id, s'.births[id].user);
      case Rotated(p, id, readAt, _) => FlightStays(cfg, init, last, s.flights[pid]);
    }
  }

  lemma {:induction false} FlightRun(cfg: Config, steps: seq<Step>, pid: int)
    requires pid in Run(cfg, steps).flights
    ensures FlightHistory(cfg, steps, Run(cfg, steps), Run(cfg, steps).flights[pid])
  {
    var init, last := steps[..|steps| - 1], steps[|steps| - 1];
    if pid in Run(cfg, init).flights {
      FlightRun(cfg, init, pid);
    }
    FlightNow(cfg, init, last, pid);
    assert init + [last] == steps;
  }

  /** A response that goes out now ends a refresh. */
  lemma ResponseNow(cfg: Config, s: Sys, last: Step, r: Response)
    requires Inv(s) && r in Next(cfg, s, last).responses && r !in s.responses
    ensures last.RefreshInsert? && last.pid in s.flights && s.flights[last.pid].Rotated?
    ensures var f := s.flights[last.pid];
      f.parent == r.parent && f.id == r.id && f.readAt == r.readAt && f.id in s.births && s.births[f.id].user == r.user
  {
    assert last.RefreshInsert? && last.pid in s.flights && s.flights[last.pid].Rotated?;
    assert FlightOk(s, last.pid);
  }

  /** Behind every answered refresh of every run: it read the live, unexpired row of the token that it
      was shown, and afterwards, before the new token had a row, found the user active. */
  lemma {:induction false} ResponseHistory(cfg: Config, steps: seq<Step>, r: Response)
    requires r in Run(cfg, steps).responses
    ensures ReadLive(cfg, steps, r.parent, r.readAt)
    ensures MintedAfter(cfg, steps, r.id, r.user, r.readAt)
  {
    var init, last := steps[..|steps| - 1], steps[|steps| - 1];
    assert init <= steps;
    if r in Run(cfg, init).responses {
      ResponseHistory(cfg, init, r);
      ReadLiveStays(cfg, init, steps, r.parent, r.readAt);
      MintedAfterStays(cfg, init, steps, r.id, r.user, r.readAt);
    } else {
      InvRun(cfg, init);
      ResponseNow(cfg, Run(cfg, init), last, r);
      FlightRun(cfg, init, last.pid);
      ReadLiveStays(cfg, init, steps, r.parent, r.readAt);
      MintedAfterStays(cfg, init, steps, r.id, r.user, r.readAt);
    }
  }
}
