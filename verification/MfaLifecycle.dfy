/** Second-factor enrolment of one user: the MFA columns of the `users` row and the handlers that
    read the row, check, and write it back in a second statement. */
module MfaLifecycle {
  import opened Wrappers

  /** `mfa_enabled` and `mfa_secret_enc`, the latter as the secret it decrypts to. */
  datatype Account = Account(enabled: bool, secret: Option<string>)

  function SetSecret(a: Account, secret: string): Account {
    a.(secret := Some(secret))
  }

  function Enable(a: Account): Account {
    a.(enabled := true)
  }

  function Disable(a: Account): Account {
    Account(false, None)
  }

  /** Which codes VerifyTOTP accepts for a secret at a time; and whether handlers may overlap. */
  datatype Config = Config(accepts: (string, string, int) -> bool, serial: bool)

  /** A handler that has read the row and passed its checks, before its write or its answer. */
  datatype Flight =
    | Enrolling(secret: string)
    | Verifying
    | Disabling
    | LoggingIn(otp: string, at: int)

  /** Tokens that Login issued: the code shown, when it was checked, the row when they went out. */
  datatype Issue = Issue(otp: string, at: int, account: Account)

  /** `verified` are the secrets for which MFAVerify has accepted a code, `drawn` all secrets generated
      so far: they are random and never repeat. */
  datatype Sys = Sys(
    account: Account, flights: map<int, Flight>, clock: int, verified: set<string>, drawn: set<string>,
    issued: seq<Issue>)

  datatype Step =
    | EnrollRead(pid: int, secret: string)
    | VerifyRead(pid: int, code: string)
    | DisableRead(pid: int, code: string)
    | LoginRead(pid: int, otp: string)
    | Finish(pid: int)
    | Crash(pid: int)
    | Wait(ms: nat)

  /** The code check that Verify, Disable and Login share. */
  predicate CodeOk(cfg: Config, a: Account, code: string, now: int) {
    code != "" && a.secret.Some? && a.secret.value != "" && cfg.accepts(a.secret.value, code, now)
  }

  function Begin(cfg: Config, s: Sys, pid: int, ok: bool, f: Flight): Sys {
    if ok && pid !in s.flights && (cfg.serial ==> s.flights == map[])
    then s.(flights := s.flights[pid := f],
            verified := if f.Verifying? && s.account.secret.Some? then s.verified + {s.account.secret.value} else s.verified)
    else s
  }

  function Next(cfg: Config, s: Sys, step: Step): Sys {
    match step
    case EnrollRead(pid, secret) =>
      Begin(cfg, s.(drawn := s.drawn + {secret}), pid,
            !s.account.enabled && secret != "" && secret !in s.drawn, Enrolling(secret))
    case VerifyRead(pid, code) => Begin(cfg, s, pid, CodeOk(cfg, s.account, code, s.clock), Verifying)
    case DisableRead(pid, code) =>
      Begin(cfg, s, pid, s.account.enabled && CodeOk(cfg, s.account, code, s.clock), Disabling)
    case LoginRead(pid, otp) =>
      Begin(cfg, s, pid, s.account.enabled ==> CodeOk(cfg, s.account, otp, s.clock), LoggingIn(otp, s.clock))
    case Finish(pid) =>
      if pid !in s.flights then s
      else
        var s' := s.(flights := s.flights - {pid});
        (match s.flights[pid]
         case Enrolling(secret) => s'.(account := SetSecret(s.account, secret))
         case Verifying => s'.(account := Enable(s.account))
         case Disabling => s'.(account := Disable(s.account))
         case LoggingIn(otp, at) => s'.(issued := s.issued + [Issue(otp, at, s.account)]))
    case Crash(pid) => s.(flights := s.flights - {pid})
    case Wait(ms) => s.(clock := s.clock + ms)
  }

  function Run(cfg: Config, s: Sys, steps: seq<Step>): Sys {
    if steps == [] then s
    else Next(cfg, Run(cfg, s, steps[..|steps| - 1]), steps[|steps| - 1])
  }

  /** Enabled only with a stored secret that has passed a verification. */
  predicate Healthy(s: Sys) {
    s.account.enabled ==>
      s.account.secret.Some? && s.account.secret.value != "" && s.account.secret.value in s.verified
  }

  /** Issued while MFA is on only against a code that matched the stored secret. */
  predicate IssueOk(cfg: Config, i: Issue) {
    i.account.enabled ==> CodeOk(cfg, i.account, i.otp, i.at)
  }

  function Start(a: Account, verified: set<string>, clock: int): Sys {
    Sys(a, map[], clock, verified, verified + if a.secret.Some? then {a.secret.value} else {}, [])
  }

  /** A healthy account before the first request. */
  predicate Initial(s: Sys) {
    Healthy(s) && s == Start(s.account, s.verified, s.clock)
  }

  /** Without overlap, the row is still as the running handler read it. */
  predicate Unchanged(cfg: Config, s: Sys, pid: int)
    requires pid in s.flights
  {
    match s.flights[pid]
    case Enrolling(secret) => !s.account.enabled && secret != ""
    case Verifying => s.account.secret.Some? && s.account.secret.value != "" && s.account.secret.value in s.verified
    case Disabling => s.account.enabled
    case LoggingIn(otp, at) => s.account.enabled ==> CodeOk(cfg, s.account, otp, at)
  }

  predicate SerialInv(cfg: Config, s: Sys) {
    && Healthy(s)
    && (forall p, q :: p in s.flights && q in s.flights ==> p == q)
    && (forall pid :: pid in s.flights ==> Unchanged(cfg, s, pid))
    && (forall i :: i in s.issued ==> IssueOk(cfg, i))
  }

  lemma SerialStep(cfg: Config, s: Sys, step: Step)
    requires cfg.serial && SerialInv(cfg, s)
    ensures SerialInv(cfg, Next(cfg, s, step))
    ensures s.account.enabled && Next(cfg, s, step).account.enabled ==>
      Next(cfg, s, step).account.secret == s.account.secret
  {
    if step.Finish? && step.pid in s.flights {
      assert Unchanged(cfg, s, step.pid);
    }
  }

  /** From a healthy account, handlers that do not overlap keep it healthy, and Login issues tokens
      while MFA is on only for a code of the stored secret. */
  lemma {:induction false} HealthyForever(cfg: Config, s0: Sys, steps: seq<Step>)
    requires cfg.serial && Initial(s0)
    ensures SerialInv(cfg, Run(cfg, s0, steps))
  {
    if steps != [] {
      HealthyForever(cfg, s0, steps[..|steps| - 1]);
      SerialStep(cfg, Run(cfg, s0, steps[..|steps| - 1]), steps[|steps| - 1]);
    }
  }

  /** While MFA stays on the secret stays the same: only after a disable can it be another. */
  lemma {:induction false} SecretKept(cfg: Config, s0: Sys, steps: seq<Step>, more: seq<Step>)
    requires cfg.serial && Initial(s0)
    requires forall n :: 0 <= n <= |more| ==> Run(cfg, s0, steps + more[..n]).account.enabled
    ensures Run(cfg, s0, steps + more).account.secret == Run(cfg, s0, steps).account.secret
  {
    if more == [] {
      assert steps + more == steps;
    } else {
      var init := more[..|more| - 1];
      forall n | 0 <= n <= |init|
        ensures Run(cfg, s0, steps + init[..n]).account.enabled
      {
        assert init[..n] == more[..n];
      }
      SecretKept(cfg, s0, steps, init);
      HealthyForever(cfg, s0, steps + init);
      assert (steps + more)[..|steps + more| - 1] == steps + init;
      assert steps + more[..|more| - 1] == steps + init && more[..|more|] == more;
      SerialStep(cfg, Run(cfg, s0, steps + init), more[|more| - 1]);
    }
  }

  // ---- Overlapping handlers, write by write

  /** The row is still as the writing handler needs it: MFA is off for an enrolment, and the stored secret
      is one that has been verified for the end of a verification. */
  predicate WriteFits(s: Sys, step: Step) {
    step.Finish? && step.pid in s.flights ==>
      match s.flights[step.pid]
      case Enrolling(_) => !s.account.enabled
      case Verifying => s.account.secret.Some? && s.account.secret.value != "" && s.account.secret.value in s.verified
      case _ => true
  }

  /** A secret under enrolment is drawn, and nobody has verified it, stored it or enrols it too. */
  predicate OwnSecrets(s: Sys) {
    && s.verified <= s.drawn
    && (s.account.secret.Some? ==> s.account.secret.value in s.drawn)
    && (forall p :: p in s.flights && s.flights[p].Enrolling? ==>
          s.flights[p].secret in s.drawn && s.flights[p].secret !in s.verified
          && s.account.secret != Some(s.flights[p].secret))
    && (forall p, q :: p in s.flights && q in s.flights && s.flights[p].Enrolling? && s.flights[p] == s.flights[q] ==>
          p == q)
  }

  lemma OwnSecretsStep(cfg: Config, s: Sys, step: Step)
    requires OwnSecrets(s)
    ensures OwnSecrets(Next(cfg, s, step))
  {
  }

  lemma {:induction false} OwnSecretsRun(cfg: Config, s0: Sys, steps: seq<Step>)
    requires Initial(s0)
    ensures OwnSecrets(Run(cfg, s0, steps))
  {
    if steps != [] {
      OwnSecretsRun(cfg, s0, steps[..|steps| - 1]);
      OwnSecretsStep(cfg, Run(cfg, s0, steps[..|steps| - 1]), steps[|steps| - 1]);
    }
  }

  /** A step keeps a healthy account healthy exactly when its write fits. */
  lemma StepHealthyIff(cfg: Config, s: Sys, step: Step)
    requires OwnSecrets(s) && Healthy(s)
    ensures Healthy(Next(cfg, s, step)) <==> WriteFits(s, step)
  {
  }

  predicate HealthyAt(cfg: Config, s0: Sys, steps: seq<Step>, n: nat)
    requires n <= |steps|
  {
    Healthy(Run(cfg, s0, steps[..n]))
  }

  predicate FitsAt(cfg: Config, s0: Sys, steps: seq<Step>, n: nat)
    requires n < |steps|
  {
    WriteFits(Run(cfg, s0, steps[..n]), steps[n])
  }

  lemma HealthyNextIff(cfg: Config, s0: Sys, steps: seq<Step>, n: nat)
    requires Initial(s0) && n < |steps| && HealthyAt(cfg, s0, steps, n)
    ensures HealthyAt(cfg, s0, steps, n + 1) <==> FitsAt(cfg, s0, steps, n)
  {
    OwnSecretsRun(cfg, s0, steps[..n]);
    RunPrefix(cfg, s0, steps, n);
    StepHealthyIff(cfg, Run(cfg, s0, steps[..n]), steps[n]);
  }

  lemma {:induction false} FittingPrefix(cfg: Config, s0: Sys, steps: seq<Step>, n: nat)
    requires Initial(s0) && n <= |steps|
    requires forall i :: 0 <= i < n ==> FitsAt(cfg, s0, steps, i)
    ensures HealthyAt(cfg, s0, steps, n)
  {
    if n > 0 {
      FittingPrefix(cfg, s0, steps, n - 1);
      HealthyNextIff(cfg, s0, steps, n - 1);
    } else {
      assert steps[..0] == [];
    }
  }

  /** For every interleaving: the account is healthy throughout exactly when every write fits the row
      that it meets. */
  lemma HealthyIffWritesFit(cfg: Config, s0: Sys, steps: seq<Step>)
    requires Initial(s0)
    ensures (forall n :: 0 <= n <= |steps| ==> HealthyAt(cfg, s0, steps, n)) <==>
      (forall n :: 0 <= n < |steps| ==> FitsAt(cfg, s0, steps, n))
  {
    if forall n :: 0 <= n <= |steps| ==> HealthyAt(cfg, s0, steps, n) {
      forall n | 0 <= n < |steps|
        ensures FitsAt(cfg, s0, steps, n)
      {
        assert HealthyAt(cfg, s0, steps, n) && HealthyAt(cfg, s0, steps, n + 1);
        HealthyNextIff(cfg, s0, steps, n);
      }
    }
    if forall n :: 0 <= n < |steps| ==> FitsAt(cfg, s0, steps, n) {
      forall n | 0 <= n <= |steps|
        ensures HealthyAt(cfg, s0, steps, n)
      {
        FittingPrefix(cfg, s0, steps, n);
      }
    }
  }

  /** An enrolment that read the row before MFA was switched on writes its secret afterwards. */
  function Overtaken(first: string, second: string, code: string): seq<Step> {
    [EnrollRead(1, second), EnrollRead(2, first), Finish(2), VerifyRead(3, code), Finish(3), Finish(1)]
  }

  lemma OvertakenRun(cfg: Config, first: string, second: string, code: string)
    requires !cfg.serial && first != "" && second != "" && second != first
    requires code != "" && cfg.accepts(first, code, 0)
    ensures var s := Run(cfg, Start(Account(false, None), {}, 0), Overtaken(first, second, code));
      !Healthy(s) && s.account == Account(true, Some(second))
  {
    var s0 := Start(Account(false, None), {}, 0);
    var t := Overtaken(first, second, code);
    OvertakenEnrols(cfg, first, second, code);
    RunPrefix(cfg, s0, t, 3);
    RunPrefix(cfg, s0, t, 4);
    RunPrefix(cfg, s0, t, 5);
    assert t[..6] == t;
  }

  /** The second of two enrolments has stored its secret, the first is still to. */
  lemma OvertakenEnrols(cfg: Config, first: string, second: string, code: string)
    requires !cfg.serial && first != "" && second != "" && second != first
    ensures var s := Run(cfg, Start(Account(false, None), {}, 0), Overtaken(first, second, code)[..3]);
      s.account == Account(false, Some(first)) && s.flights == map[1 := Enrolling(second)] && s.verified == {} && s.clock == 0
  {
    var s0 := Start(Account(false, None), {}, 0);
    var t := Overtaken(first, second, code);
    RunPrefix(cfg, s0, t, 0);
    RunPrefix(cfg, s0, t, 1);
    RunPrefix(cfg, s0, t, 2);
  }

  /** A disable between the read and the write of a verification leaves MFA on without a secret. */
  lemma DisabledRun(cfg: Config, secret: string, code: string)
    requires !cfg.serial && secret != "" && code != "" && cfg.accepts(secret, code, 0)
    ensures var s := Run(cfg, Start(Account(true, Some(secret)), {secret}, 0),
                         [VerifyRead(1, code), DisableRead(2, code), Finish(2), Finish(1)]);
      !Healthy(s) && s.account == Account(true, None)
  {
    var s0 := Start(Account(true, Some(secret)), {secret}, 0);
    var t := [VerifyRead(1, code), DisableRead(2, code), Finish(2), Finish(1)];
    RunPrefix(cfg, s0, t, 0);
    RunPrefix(cfg, s0, t, 1);
    RunPrefix(cfg, s0, t, 2);
    RunPrefix(cfg, s0, t, 3);
    assert t[..4] == t;
  }

  lemma RunPrefix(cfg: Config, s: Sys, steps: seq<Step>, n: nat)
    requires n < |steps|
    ensures Run(cfg, s, steps[..n + 1]) == Next(cfg, Run(cfg, s, steps[..n]), steps[n])
  {
    assert steps[..n + 1][..n] == steps[..n];
  }

  ghost predicate AlwaysHealthy(cfg: Config) {
    forall s0, steps :: Initial(s0) ==> Healthy(Run(cfg, s0, steps))
  }

  /** Where some secret has an acceptable code, every run stays healthy exactly when handlers do not
      overlap. */
  lemma HealthyIffSerial(cfg: Config, secret: string, code: string)
    requires secret != "" && code != "" && cfg.accepts(secret, code, 0)
    ensures AlwaysHealthy(cfg) <==> cfg.serial
  {
    if cfg.serial {
      forall s0, steps | Initial(s0)
        ensures Healthy(Run(cfg, s0, steps))
      {
        HealthyForever(cfg, s0, steps);
      }
    } else {
      OvertakenRun(cfg, secret, secret + "A", code);
    }
  }

  // ---- Whole handlers

  function AfterEnroll(a: Account, secret: string): Account {
    if a.enabled then a else SetSecret(a, secret)
  }

  function AfterVerify(cfg: Config, a: Account, code: string, now: int): Account {
    if CodeOk(cfg, a, code, now) then Enable(a) else a
  }

  function AfterDisable(cfg: Config, a: Account, code: string, now: int): Account {
    if a.enabled && CodeOk(cfg, a, code, now) then Disable(a) else a
  }

  /** A handler whose two steps nothing separates has the effect of the whole call. */
  lemma HandlersAlone(cfg: Config, s: Sys, pid: int, secret: string, code: string)
    requires s.flights == map[] && secret != "" && secret !in s.drawn
    ensures Next(cfg, Next(cfg, s, EnrollRead(pid, secret)), Finish(pid)).account == AfterEnroll(s.account, secret)
    ensures Next(cfg, Next(cfg, s, VerifyRead(pid, code)), Finish(pid)).account
         == AfterVerify(cfg, s.account, code, s.clock)
    ensures Next(cfg, Next(cfg, s, DisableRead(pid, code)), Finish(pid)).account
         == AfterDisable(cfg, s.account, code, s.clock)
  {
  }

  // ---- Which codes were checked

  /** At step n a verification checked a code of the stored secret and found it acceptable. */
  predicate VerifiedAt(cfg: Config, s0: Sys, steps: seq<Step>, n: nat, secret: string)
    requires n < |steps|
  {
    var s := Run(cfg, s0, steps[..n]);
    && steps[n].VerifyRead? && steps[n].code != "" && secret != "" && s.account.secret == Some(secret)
    && cfg.accepts(secret, steps[n].code, s.clock)
  }

  /** At step n a login with `otp` passed: MFA was off, or the code of the stored secret was acceptable. */
  predicate PassedAt(cfg: Config, s0: Sys, steps: seq<Step>, n: nat, otp: string, at: int)
    requires n < |steps|
  {
    var s := Run(cfg, s0, steps[..n]);
    && steps[n].LoginRead? && steps[n].otp == otp && s.clock == at
    && (s.account.enabled ==>
          otp != "" && s.account.secret.Some? && s.account.secret.value != ""
          && cfg.accepts(s.account.secret.value, otp, at))
  }

  predicate WasVerified(cfg: Config, s0: Sys, steps: seq<Step>, secret: string) {
    exists n: nat :: n < |steps| && VerifiedAt(cfg, s0, steps, n, secret)
  }

  predicate HasPassed(cfg: Config, s0: Sys, steps: seq<Step>, otp: string, at: int) {
    exists n: nat :: n < |steps| && PassedAt(cfg, s0, steps, n, otp, at)
  }

  lemma SamePrefix(steps: seq<Step>, init: seq<Step>, n: nat)
    requires init <= steps && n < |init|
    ensures steps[..n] == init[..n] && steps[n] == init[n]
  {
  }

  lemma VerifiedStays(cfg: Config, s0: Sys, init: seq<Step>, steps: seq<Step>, secret: string)
    requires init <= steps && WasVerified(cfg, s0, init, secret)
    ensures WasVerified(cfg, s0, steps, secret)
  {
    var n: nat :| n < |init| && VerifiedAt(cfg, s0, init, n, secret);
    SamePrefix(steps, init, n);
    assert VerifiedAt(cfg, s0, steps, n, secret);
  }

  lemma PassedStays(cfg: Config, s0: Sys, init: seq<Step>, steps: seq<Step>, otp: string, at: int)
    requires init <= steps && HasPassed(cfg, s0, init, otp, at)
    ensures HasPassed(cfg, s0, steps, otp, at)
  {
    var n: nat :| n < |init| && PassedAt(cfg, s0, init, n, otp, at);
    SamePrefix(steps, init, n);
    assert PassedAt(cfg, s0, steps, n, otp, at);
  }

  /** In every interleaving a secret counts as verified only after a code of it was found acceptable while
      it was stored. */
  lemma {:induction false} VerifiedByCode(cfg: Config, s0: Sys, steps: seq<Step>, secret: string)
    requires secret in Run(cfg, s0, steps).verified && secret !in s0.verified
    ensures WasVerified(cfg, s0, steps, secret)
  {
    var init, last := steps[..|steps| - 1], steps[|steps| - 1];
    if secret in Run(cfg, s0, init).verified {
      VerifiedByCode(cfg, s0, init, secret);
      VerifiedStays(cfg, s0, init, steps, secret);
    } else {
      assert VerifiedAt(cfg, s0, steps, |init|, secret);
    }
  }

  lemma {:induction false} LoginPassed(cfg: Config, s0: Sys, steps: seq<Step>, pid: int)
    requires s0.flights == map[]
    requires pid in Run(cfg, s0, steps).flights && Run(cfg, s0, steps).flights[pid].LoggingIn?
    ensures var f := Run(cfg, s0, steps).flights[pid]; HasPassed(cfg, s0, steps, f.otp, f.at)
  {
    var init, last := steps[..|steps| - 1], steps[|steps| - 1];
    var s := Run(cfg, s0, init);
    var f := Run(cfg, s0, steps).flights[pid];
    if pid in s.flights {
      LoginPassed(cfg, s0, init, pid);
      PassedStays(cfg, s0, init, steps, f.otp, f.at);
    } else {
      assert PassedAt(cfg, s0, steps, |init|, f.otp, f.at);
    }
  }

  /** In every interleaving a login issues tokens only if, when it read the row, MFA was off or its code
      was acceptable for the stored secret. */
  lemma {:induction false} IssuedByCode(cfg: Config, s0: Sys, steps: seq<Step>, i: Issue)
    requires s0.flights == map[] && s0.issued == [] && i in Run(cfg, s0, steps).issued
    ensures HasPassed(cfg, s0, steps, i.otp, i.at)
  {
    var init, last := steps[..|steps| - 1], steps[|steps| - 1];
    if i in Run(cfg, s0, init).issued {
      IssuedByCode(cfg, s0, init, i);
      PassedStays(cfg, s0, init, steps, i.otp, i.at);
    } else {
      LoginPassed(cfg, s0, init, last.pid);
      PassedStays(cfg, s0, init, steps, i.otp, i.at);
    }
  }
}
