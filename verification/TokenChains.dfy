/** The rows of one login, whatever requests overlap or crash: they form a single replaced_by chain
    exactly when no refresh that missed its revocation went on to insert. */
module TokenChains {
  import opened Wrappers
  import opened Sets
  import opened TokenRotation

  // ---- Rows outside the chain

  /** Every row but a login's own is the successor of its parent's row. */
  predicate Linked(s: Sys, id: TokenId) {
    id in s.births && s.births[id].parent.Some? ==>
      var p := s.births[id].parent.value;
      p in s.rows && s.rows[p].replacedBy == Some(id)
  }

  function Strays(s: Sys, login: TokenId): set<TokenId> {
    set id | id in s.rows && Root(s, id) == login && !Linked(s, id)
  }

  /** The row that a step adds beside the chain. */
  function NewStray(s: Sys, step: Step, login: TokenId): set<TokenId> {
    if step.RefreshInsert? && step.pid in s.flights && s.flights[step.pid].Rotated? && !s.flights[step.pid].hit
       && Root(s, s.flights[step.pid].id) == login
    then {s.flights[step.pid].id}
    else {}
  }

  lemma BirthStays(cfg: Config, s: Sys, step: Step, id: TokenId)
    requires Known(s) && id in s.births
    ensures id in Next(cfg, s, step).births && Next(cfg, s, step).births[id] == s.births[id]
    ensures Root(Next(cfg, s, step), id) == Root(s, id)
  {
  }

  /** An unrevoked row that a step revokes in favour of a token gets one that has no row yet. */
  lemma NewSuccessor(cfg: Config, s: Sys, step: Step, p: TokenId, n: TokenId)
    requires forall pid :: pid in s.flights ==> FlightOk(s, pid)
    requires p in s.rows && s.rows[p].revokedAt == None && s.rows[p].replacedBy == None
    requires p in Next(cfg, s, step).rows && Next(cfg, s, step).rows[p].replacedBy == Some(n)
    ensures n !in s.rows
  {
    assert step.RefreshRevoke? && FlightOk(s, step.pid);
  }

  /** A row stays in or beside the chain. */
  lemma LinkedSame(cfg: Config, s: Sys, step: Step, id: TokenId)
    requires Known(s) && id in s.rows && BirthOk(s, id)
    requires forall pid :: pid in s.flights ==> FlightOk(s, pid)
    requires forall i :: i in s.rows ==> RowOk(s, i)
    ensures Linked(Next(cfg, s, step), id) <==> Linked(s, id)
  {
    BirthStays(cfg, s, step, id);
    if s.births[id].parent.Some? {
      var p := s.births[id].parent.value;
      assert RowOk(s, p);
      RowKept(cfg, s, step, p);
      if Next(cfg, s, step).rows[p] != s.rows[p] && Next(cfg, s, step).rows[p].replacedBy == Some(id) {
        NewSuccessor(cfg, s, step, p, id);
        assert false;
      }
    }
  }

  /** A new row is a stray exactly when its refresh had missed. */
  lemma LinkedNew(cfg: Config, s: Sys, step: Step, id: TokenId)
    requires Known(s) && id !in s.rows && id in Next(cfg, s, step).rows
    requires forall pid :: pid in s.flights ==> FlightOk(s, pid)
    ensures (step.LoginInsert? || step.RefreshInsert?) && step.pid in s.flights && s.flights[step.pid].id == id
    ensures id in s.births && Root(Next(cfg, s, step), id) == Root(s, id)
    ensures !Linked(Next(cfg, s, step), id) <==> step.RefreshInsert? && !s.flights[step.pid].hit
  {
    assert FlightOk(s, step.pid);
    BirthStays(cfg, s, step, id);
  }

  lemma StraysStep(cfg: Config, s: Sys, step: Step, login: TokenId)
    requires Inv(s)
    ensures Strays(Next(cfg, s, step), login) == Strays(s, login) + NewStray(s, step, login)
    ensures Strays(s, login) !! NewStray(s, step, login)
  {
    InvKnown(s);
    var s' := Next(cfg, s, step);
    forall id
      ensures id in Strays(s', login) <==> id in Strays(s, login) + NewStray(s, step, login)
      ensures !(id in Strays(s, login) && id in NewStray(s, step, login))
    {
      StrayOr(cfg, s, step, login, id);
    }
    SameNats(Strays(s', login), Strays(s, login) + NewStray(s, step, login));
  }

  lemma StrayOr(cfg: Config, s: Sys, step: Step, login: TokenId, id: TokenId)
    requires Inv(s) && Known(s)
    ensures id in Strays(Next(cfg, s, step), login) <==> id in Strays(s, login) || id in NewStray(s, step, login)
    ensures !(id in Strays(s, login) && id in NewStray(s, step, login))
  {
    if id in NewStray(s, step, login) {
      assert FlightOk(s, step.pid);
    }
    if id in s.rows {
      assert RowOk(s, id) && BirthOk(s, id);
      RowKept(cfg, s, step, id);
      BirthStays(cfg, s, step, id);
      LinkedSame(cfg, s, step, id);
    } else if id in Next(cfg, s, step).rows {
      LinkedNew(cfg, s, step, id);
    }
  }

  // ---- The account of strays

  /** The strays are the inserts of refreshes that had missed, and there are none without a miss. */
  predicate StrayLedger(s: Sys, login: TokenId) {
    && |Strays(s, login)| == Book(s, login).strays
    && (Book(s, login).strays > 0 ==> Book(s, login).missed > 0)
  }

  /** A handler whose revocation missed has been counted. */
  predicate MissBooked(s: Sys, pid: int)
    requires pid in s.flights
  {
    s.flights[pid].Rotated? && !s.flights[pid].hit ==> Book(s, Root(s, s.flights[pid].id)).missed > 0
  }

  lemma BookStep(cfg: Config, s: Sys, step: Step, login: TokenId)
    requires Known(s)
    requires forall pid :: pid in s.flights ==> FlightOk(s, pid)
    ensures Book(Next(cfg, s, step), login).missed >= Book(s, login).missed
    ensures Book(Next(cfg, s, step), login).strays == Book(s, login).strays + |NewStray(s, step, login)|
  {
    assert step.RefreshInsert? && step.pid in s.flights ==> FlightOk(s, step.pid);
  }

  lemma MissStep(cfg: Config, s: Sys, step: Step, pid: int)
    requires Inv(s) && Known(s) && pid in Next(cfg, s, step).flights
    requires pid in s.flights ==> MissBooked(s, pid)
    ensures MissBooked(Next(cfg, s, step), pid)
  {
    var s' := Next(cfg, s, step);
    if pid in s.flights && s'.flights[pid] == s.flights[pid] && s.flights[pid].Rotated? {
      var id := s.flights[pid].id;
      assert FlightOk(s, pid);
      BirthStays(cfg, s, step, id);
      BookStep(cfg, s, step, Root(s, id));
    } else if s'.flights[pid].Rotated? {
      MissNow(cfg, s, step, pid);
    }
  }

  lemma MissNow(cfg: Config, s: Sys, step: Step, pid: int)
    requires Inv(s) && pid in Next(cfg, s, step).flights && Next(cfg, s, step).flights[pid].Rotated?
    requires pid !in s.flights || Next(cfg, s, step).flights[pid] != s.flights[pid]
    ensures MissBooked(Next(cfg, s, step), pid)
  {
    assert step == RefreshRevoke(pid) && pid in s.flights && s.flights[pid].Minted?;
    assert FlightOk(s, pid) && BirthOk(s, s.flights[pid].id);
  }

  lemma StrayLedgerStep(cfg: Config, s: Sys, step: Step, login: TokenId)
    requires Inv(s) && StrayLedger(s, login)
    requires forall pid :: pid in s.flights ==> MissBooked(s, pid)
    ensures StrayLedger(Next(cfg, s, step), login)
  {
    InvKnown(s);
    StraysStep(cfg, s, step, login);
    BookStep(cfg, s, step, login);
  }

  lemma {:induction false} StrayRun(cfg: Config, steps: seq<Step>, login: TokenId)
    ensures StrayLedger(Run(cfg, steps), login)
    ensures forall pid :: pid in Run(cfg, steps).flights ==> MissBooked(Run(cfg, steps), pid)
  {
    if steps == [] {
      assert Strays(START, login) == {};
    } else {
      var init, last := steps[..|steps| - 1], steps[|steps| - 1];
      StrayRun(cfg, init, login);
      InvRun(cfg, init);
      InvKnown(Run(cfg, init));
      StrayLedgerStep(cfg, Run(cfg, init), last, login);
      forall pid | pid in Run(cfg, steps).flights {
        MissStep(cfg, Run(cfg, init), last, pid);
      }
    }
  }

  // ---- Chains

  /** Following replaced_by from a row while the successor exists. */
  function Chain(rows: map<TokenId, Row>, id: TokenId, bound: TokenId): seq<TokenId>
    requires id <= bound
    decreases bound - id
  {
    if id !in rows then []
    else match rows[id].replacedBy
      case None => [id]
      case Some(n) => if id < n <= bound then [id] + Chain(rows, n, bound) else [id]
  }

  /** All rows of one login. */
  predicate InFamily(s: Sys, login: TokenId, id: TokenId) {
    id in s.rows && Root(s, id) == login
  }

  /** Each row but the last is revoked and names the next one as its replacement. */
  predicate IsChain(rows: map<TokenId, Row>, c: seq<TokenId>) {
    forall i :: 0 <= i < |c| - 1 ==>
      c[i] in rows && rows[c[i]].revokedAt.Some? && rows[c[i]].replacedBy == Some(c[i + 1])
  }

  lemma {:induction false} ChainLinks(s: Sys, id: TokenId)
    requires Inv(s) && id <= s.nextId
    ensures var c := Chain(s.rows, id, s.nextId);
      && (id in s.rows ==> c != [] && c[0] == id)
      && (forall i :: 0 <= i < |c| ==> InFamily(s, Root(s, id), c[i]))
      && IsChain(s.rows, c)
    decreases s.nextId - id
  {
    if id in s.rows && s.rows[id].replacedBy.Some? {
      var n := s.rows[id].replacedBy.value;
      assert RowOk(s, id) && BirthOk(s, n);
      ChainLinks(s, n);
    }
  }

  lemma {:induction false} ChainStep(s: Sys, id: TokenId, p: TokenId, n: TokenId)
    requires Inv(s) && id <= s.nextId && p in Chain(s.rows, id, s.nextId)
    requires p in s.rows && s.rows[p].replacedBy == Some(n) && n in s.rows
    ensures n in Chain(s.rows, id, s.nextId)
    decreases s.nextId - id
  {
    assert RowOk(s, p) && BirthOk(s, n);
    if id == p {
      assert n in Chain(s.rows, n, s.nextId);
    } else {
      var m := s.rows[id].replacedBy.value;
      assert p in Chain(s.rows, m, s.nextId);
      ChainStep(s, m, p, n);
    }
  }

  lemma {:induction false} FamilyInChain(s: Sys, login: TokenId, id: TokenId)
    requires Inv(s) && Strays(s, login) == {} && IsLogin(s, login) && login <= s.nextId && InFamily(s, login, id)
    ensures id in Chain(s.rows, login, s.nextId)
    decreases id
  {
    assert RowOk(s, id) && BirthOk(s, id);
    assert id !in Strays(s, login);
    if s.births[id].parent.Some? {
      var p := s.births[id].parent.value;
      assert BirthOk(s, p);
      FamilyInChain(s, login, p);
      ChainStep(s, login, p, id);
    }
  }

  /** All rows of a login, and no others, from its own row to the last replacement. */
  predicate IsWholeChain(s: Sys, login: TokenId, c: seq<TokenId>) {
    && c != [] && c[0] == login && IsChain(s.rows, c)
    && (forall id :: id in c ==> InFamily(s, login, id))
    && (forall id :: id in s.rows && InFamily(s, login, id) ==> id in c)
  }

  ghost predicate IsOneChain(s: Sys, login: TokenId) {
    exists c: seq<TokenId> :: IsWholeChain(s, login, c)
  }

  lemma NoStraysChain(s: Sys, login: TokenId)
    requires Inv(s) && IsLogin(s, login) && Strays(s, login) == {}
    ensures IsOneChain(s, login)
  {
    assert BirthOk(s, login);
    ChainLinks(s, login);
    var c := Chain(s.rows, login, s.nextId);
    forall id | id in s.rows && InFamily(s, login, id)
      ensures id in c
    {
      FamilyInChain(s, login, id);
    }
    assert IsWholeChain(s, login, c);
  }

  /** A row of a whole chain is its parent's successor. */
  lemma ChainedIsLinked(s: Sys, login: TokenId, c: seq<TokenId>, id: TokenId)
    requires Inv(s) && IsLogin(s, login) && IsWholeChain(s, login, c) && id in c
    ensures Linked(s, id)
  {
    var i :| 0 <= i < |c| && c[i] == id;
    if i > 0 {
      assert RowOk(s, c[i - 1]);
    }
  }

  lemma ChainNoStrays(s: Sys, login: TokenId)
    requires Inv(s) && IsLogin(s, login) && IsOneChain(s, login)
    ensures |Strays(s, login)| == 0
  {
    var c: seq<TokenId> :| IsWholeChain(s, login, c);
    forall id: TokenId
      ensures id !in Strays(s, login)
    {
      if id in s.rows && Root(s, id) == login {
        ChainedIsLinked(s, login, c, id);
      }
    }
    NatSubsetSize(Strays(s, login), {});
  }

  /** Of a whole chain only the last row can be live. */
  lemma LiveIsLast(s: Sys, login: TokenId, c: seq<TokenId>, id: TokenId)
    requires IsWholeChain(s, login, c) && id in Live(s, login)
    ensures id == c[|c| - 1]
  {
    var i :| 0 <= i < |c| && c[i] == id;
  }

  lemma OneChainOneLive(s: Sys, login: TokenId)
    requires IsOneChain(s, login)
    ensures |Live(s, login)| <= 1
  {
    var c: seq<TokenId> :| IsWholeChain(s, login, c);
    forall id | id in Live(s, login) {
      LiveIsLast(s, login, c, id);
    }
    NatSubsetSize(Live(s, login), {c[|c| - 1]});
  }

  lemma NoElements(a: set<nat>)
    requires |a| == 0
    ensures a == {}
  {
  }

  /** In every interleaving, with crashes anywhere: the rows of a login form one chain exactly when no
      refresh whose revocation had missed went on to insert; and then at most one of them is live. */
  lemma OneChainIff(cfg: Config, steps: seq<Step>, login: TokenId)
    requires IsLogin(Run(cfg, steps), login)
    ensures var s := Run(cfg, steps);
      && (IsOneChain(s, login) <==> Book(s, login).strays == 0)
      && (Book(s, login).strays == 0 ==> |Live(s, login)| <= 1)
  {
    var s := Run(cfg, steps);
    InvRun(cfg, steps);
    StrayRun(cfg, steps, login);
    if Book(s, login).strays == 0 {
      NoElements(Strays(s, login));
      NoStraysChain(s, login);
      OneChainOneLive(s, login);
    }
    if IsOneChain(s, login) {
      ChainNoStrays(s, login);
    }
  }

  /** A login none of whose refreshes ever missed its revocation keeps one chain, whatever overlaps. */
  lemma NoMissOneChain(cfg: Config, steps: seq<Step>, login: TokenId)
    requires IsLogin(Run(cfg, steps), login) && Book(Run(cfg, steps), login).missed == 0
    ensures IsOneChain(Run(cfg, steps), login) && |Live(Run(cfg, steps), login)| <= 1
  {
    StrayRun(cfg, steps, login);
    OneChainIff(cfg, steps, login);
  }

  lemma NatSubsetSize(a: set<nat>, b: set<nat>)
    requires forall x :: x in a ==> x in b
    ensures |a| <= |b|
  {
    forall x | x in a
      ensures x in b
    {
    }
    SubsetSize(a, b);
  }
}
