/** The read-through cache of the report handlers: keys, the TTL store behind them, and many
    handlers that look up, compute and store in separate steps while the database changes. */
module ReportCache {
  import opened Wrappers
  import opened Decimal

  /** `months` is the clamped parameter; `csv` tells SummaryCSV from Summary. */
  datatype Request = Request(user: int, role: string, months: int, csv: bool)

  // ---- Keys

  function CacheKey(r: Request): string {
    (if r.csv then "spds:summarycsv" else "spds:summary") + KeyRest(r)
  }

  function KeyRest(r: Request): string {
    ":uid:" + (PrintInt(r.user) + (":role:" + (r.role + (":months:" + PrintInt(r.months)))))
  }

  /** The key in the shared store. */
  function StoreKey(prefix: string, k: string): string {
    if prefix == "" then k else prefix + ":" + k
  }

  lemma {:induction false} PrintNoColon(n: nat)
    ensures ':' !in Print(n)
  {
    PrintRoundTrip(n);
  }

  lemma PrintIntNoColon(n: int)
    ensures ':' !in PrintInt(n)
  {
    PrintNoColon(if n < 0 then -n else n);
  }

  /** Text up to the first colon. */
  lemma SplitFirst(a: string, b: string, c: string, d: string)
    requires ':' !in a && ':' !in c && ":" <= b && ":" <= d && a + b == c + d
    ensures a == c && b == d
  {
    assert (a + b)[|a|] == ':' && (c + d)[|c|] == ':';
    assert forall i :: 0 <= i < |a| ==> (a + b)[i] == a[i];
    assert forall i :: 0 <= i < |c| ==> (c + d)[i] == c[i];
    assert |a| == |c|;
    assert a == (a + b)[..|a|] && c == (c + d)[..|c|];
    assert b == (a + b)[|a|..] && d == (c + d)[|c|..];
  }

  /** Text after the last colon. */
  lemma SplitLast(a: string, b: string, c: string, d: string)
    requires ':' !in b && ':' !in d && a != "" && c != "" && a[|a| - 1] == ':' && c[|c| - 1] == ':'
    requires a + b == c + d
    ensures a == c && b == d
  {
    assert (a + b)[|a| - 1] == ':' && (c + d)[|c| - 1] == ':';
    assert forall i :: |a| <= i < |a + b| ==> (a + b)[i] == b[i - |a|];
    assert forall i :: |c| <= i < |c + d| ==> (c + d)[i] == d[i - |c|];
    assert |a| == |c|;
    assert a == (a + b)[..|a|] && c == (c + d)[..|c|];
    assert b == (a + b)[|a|..] && d == (c + d)[|c|..];
  }

  lemma SamePrefix(p: string, a: string, b: string)
    requires p + a == p + b
    ensures a == b
  {
    assert a == (p + a)[|p|..] && b == (p + b)[|p|..];
  }

  lemma SameSuffix(p: string, q: string, s: string)
    requires p + s == q + s
    ensures p == q
  {
    assert |p| == |q|;
    assert p == (p + s)[..|p|] && q == (q + s)[..|q|];
  }

  lemma RestInjective(a: Request, b: Request)
    requires KeyRest(a) == KeyRest(b)
    ensures a.user == b.user && a.role == b.role && a.months == b.months
  {
    var ra, rb := ":role:" + (a.role + (":months:" + PrintInt(a.months))), ":role:" + (b.role + (":months:" + PrintInt(b.months)));
    SamePrefix(":uid:", PrintInt(a.user) + ra, PrintInt(b.user) + rb);
    PrintIntNoColon(a.user);
    PrintIntNoColon(b.user);
    SplitFirst(PrintInt(a.user), ra, PrintInt(b.user), rb);
    PrintIntInjective(a.user, b.user);
    SamePrefix(":role:", a.role + (":months:" + PrintInt(a.months)), b.role + (":months:" + PrintInt(b.months)));
    TailInjective(a.role, a.months, b.role, b.months);
  }

  lemma TailInjective(r: string, m: int, s: string, n: int)
    requires r + (":months:" + PrintInt(m)) == s + (":months:" + PrintInt(n))
    ensures r == s && m == n
  {
    PrintIntNoColon(m);
    PrintIntNoColon(n);
    assert r + (":months:" + PrintInt(m)) == (r + ":months:") + PrintInt(m);
    assert s + (":months:" + PrintInt(n)) == (s + ":months:") + PrintInt(n);
    SplitLast(r + ":months:", PrintInt(m), s + ":months:", PrintInt(n));
    SameSuffix(r, s, ":months:");
    PrintIntInjective(m, n);
  }

  /** Different requests never share a key, whatever characters the role contains; in particular a
      JSON and a CSV report never do. */
  lemma KeysDiffer(prefix: string, a: Request, b: Request)
    requires StoreKey(prefix, CacheKey(a)) == StoreKey(prefix, CacheKey(b))
    ensures a == b
  {
    if prefix != "" {
      SamePrefix(prefix + ":", CacheKey(a), CacheKey(b));
    }
    KindDiffers(a, b);
    if a.csv {
      SamePrefix("spds:summarycsv", KeyRest(a), KeyRest(b));
    } else {
      SamePrefix("spds:summary", KeyRest(a), KeyRest(b));
    }
    RestInjective(a, b);
  }

  /** Services with different prefixes never share a key. */
  lemma PrefixesApart(p: string, k: string, q: string, l: string)
    requires StoreKey(p, k) == StoreKey(q, l) && p != "" && q != "" && ':' !in p && ':' !in q
    ensures p == q && k == l
  {
    assert p + ":" + k == p + (":" + k) && q + ":" + l == q + (":" + l);
    SplitFirst(p, ":" + k, q, ":" + l);
    SamePrefix(":", k, l);
  }

  lemma KindDiffers(a: Request, b: Request)
    requires CacheKey(a) == CacheKey(b)
    ensures a.csv == b.csv
  {
    assert CacheKey(a)[12] == if a.csv then 'c' else ':';
    assert CacheKey(b)[12] == if b.csv then 'c' else ':';
  }

  // ---- The store

  datatype StatusCount = StatusCount(status: string, count: int)

  datatype MonthCount = MonthCount(month: int, status: string, count: int)

  /** The two queries, for a version of the data, a user, a role and a number of months; the two
      encodings of their results; whether bytes decode as JSON; and the prefix of the keys. */
  datatype Config = Config(
    byStatus: (nat, int, string) -> seq<StatusCount>, byMonth: (nat, int, string, int) -> seq<MonthCount>,
    json: (seq<StatusCount>, seq<MonthCount>) -> string, csv: seq<MonthCount> -> string,
    valid: string -> bool, prefix: string)

  datatype Entry = Entry(body: string, deadline: int)

  const TTL := 15_000

  /** What a GET at `now` finds. */
  function Lookup(store: map<string, Entry>, key: string, now: int): Option<string> {
    if key in store && now <= store[key].deadline then Some(store[key].body) else None
  }

  datatype Served = Served(store: map<string, Entry>, body: string)

  /** A whole report request: `answer` is what the database says, `up` whether the lookup reaches the
      server, `upDel` and `upSet` whether the deletion of a corrupt entry and the final store do. */
  function Serve(valid: string -> bool, store: map<string, Entry>, key: string, csv: bool, answer: string,
                 now: int, up: bool, upDel: bool, upSet: bool): Served {
    var found := if up then Lookup(store, key, now) else None;
    if found.Some? && (csv || valid(found.value)) then Served(store, found.value)
    else if upSet then Served(store[key := Entry(answer, now + TTL)], answer)
    else Served(if found.Some? && upDel then store - {key} else store, answer)
  }

  /** cachex.Cache over one store. `up` tells whether a command reaches the server. */
  class Cache {
    var store: map<string, Entry>
    const cfg: Config

    constructor (cfg: Config)
      ensures store == map[] && this.cfg == cfg
    {
      store, this.cfg := map[], cfg;
    }

    /** None for a miss and for an error alike. */
    method Get(k: string, now: int, up: bool) returns (v: Option<string>)
      ensures v == if up then Lookup(store, StoreKey(cfg.prefix, k), now) else None
    {
      if !up {
        return None;
      }
      v := Lookup(store, StoreKey(cfg.prefix, k), now);
    }

    method Set(k: string, body: string, now: int, ttl: int, up: bool)
      modifies this`store
      ensures store == if up then old(store)[StoreKey(cfg.prefix, k) := Entry(body, now + ttl)] else old(store)
    {
      if up {
        store := store[StoreKey(cfg.prefix, k) := Entry(body, now + ttl)];
      }
    }

    method Del(keys: seq<string>, up: bool)
      modifies this`store
      ensures store == if up then old(store) - (set i | 0 <= i < |keys| :: StoreKey(cfg.prefix, keys[i])) else old(store)
    {
      if !up || |keys| == 0 {
        return;
      }
      var gone: set<string> := {};
      var i := 0;
      while i < |keys|
        invariant 0 <= i <= |keys|
        invariant gone == set j | 0 <= j < i :: StoreKey(cfg.prefix, keys[j])
      {
        gone := gone + {StoreKey(cfg.prefix, keys[i])};
        i := i + 1;
      }
      store := store - gone;
    }

    /** A corrupt entry is deleted, if the server can be reached again, and counts as a miss. */
    method GetJSON(k: string, now: int, up: bool, upAgain: bool) returns (v: Option<string>)
      modifies this`store
      ensures var found := if up then Lookup(old(store), StoreKey(cfg.prefix, k), now) else None;
        && v == (if found.Some? && cfg.valid(found.value) then found else None)
        && store == (if found.Some? && !cfg.valid(found.value) && upAgain then old(store) - {StoreKey(cfg.prefix, k)} else old(store))
    {
      v := Get(k, now, up);
      if v.Some? && !cfg.valid(v.value) {
        ghost var gone := set i | 0 <= i < |[k]| :: StoreKey(cfg.prefix, [k][i]);
        assert StoreKey(cfg.prefix, [k][0]) in gone;
        assert gone == {StoreKey(cfg.prefix, k)};
        Del([k], upAgain);
        v := None;
      }
    }

    /** Summary or SummaryCSV in one go; `v1` and `v2` are the versions that the two queries meet. */
    method Report(r: Request, v1: nat, v2: nat, now: int, up: bool, upDel: bool, upSet: bool) returns (body: string)
      modifies this`store
      ensures var key, months := StoreKey(cfg.prefix, CacheKey(r)), cfg.byMonth(v2, r.user, r.role, r.months);
        var answer := if r.csv then cfg.csv(months) else cfg.json(cfg.byStatus(v1, r.user, r.role), months);
        Served(store, body) == Serve(cfg.valid, old(store), key, r.csv, answer, now, up, upDel, upSet)
    {
      var cached;
      if r.csv {
        cached := Get(CacheKey(r), now, up);
      } else {
        cached := GetJSON(CacheKey(r), now, up, upDel);
      }
      if cached.Some? {
        return cached.value;
      }
      if r.csv {
        body := cfg.csv(cfg.byMonth(v2, r.user, r.role, r.months));
      } else {
        var statuses := cfg.byStatus(v1, r.user, r.role);
        body := cfg.json(statuses, cfg.byMonth(v2, r.user, r.role, r.months));
      }
      Set(CacheKey(r), body, now, TTL, upSet);
    }
  }

  // ---- Many handlers

  /** The two queries are read transactions of their own, so they may see two versions of the data; the
      CSV report makes only the second. Only the proofs read `begun`, `v1` and `v2`. */
  datatype Flight =
    | Corrupt(r: Request, begun: nat)
    | Missed(r: Request, begun: nat)
    | Counted(r: Request, begun: nat, v1: nat, statuses: seq<StatusCount>)
    | Computed(r: Request, begun: nat, v1: nat, v2: nat, statuses: seq<StatusCount>, months: seq<MonthCount>)

  /** Only the proofs read this record of successful stores: the versions that were read, and the
      version of the data at the store. */
  datatype Saved = Saved(r: Request, body: string, at: int, v1: nat, v2: nat, version: nat)

  datatype Response =
    | Fresh(r: Request, body: string, begun: nat, v1: nat, v2: nat, version: nat)
    | FromCache(r: Request, body: string, at: int, version: nat)

  datatype Sys = Sys(
    store: map<string, Entry>, clock: int, version: nat, flights: map<int, Flight>,
    saved: seq<Saved>, responses: seq<Response>)

  datatype Step =
    | Look(pid: int, r: Request, up: bool)
    | DropCorrupt(pid: int, up: bool)
    | CountByStatus(pid: int)
    | CountByMonth(pid: int)
    | Answered(pid: int, up: bool)
    | Crash(pid: int)
    | Change
    | Wait(ms: nat)
    | Evict(key: string)
    | Damage(r: Request, body: string, deadline: int)

  function KeyOf(cfg: Config, r: Request): string {
    StoreKey(cfg.prefix, CacheKey(r))
  }

  const START := Sys(map[], 0, 0, map[], [], [])

  function Next(cfg: Config, s: Sys, step: Step): Sys {
    match step
    case Look(pid, r, up) =>
      if pid in s.flights then s
      else
        var found := if up then Lookup(s.store, KeyOf(cfg, r), s.clock) else None;
        if found == None then s.(flights := s.flights[pid := Missed(r, s.version)])
        else if r.csv || cfg.valid(found.value) then
          s.(responses := s.responses + [FromCache(r, found.value, s.clock, s.version)])
        else s.(flights := s.flights[pid := Corrupt(r, s.version)])
    case DropCorrupt(pid, up) =>
      if pid !in s.flights || !s.flights[pid].Corrupt? then s
      else
        var f := s.flights[pid];
        s.(store := if up then s.store - {KeyOf(cfg, f.r)} else s.store, flights := s.flights[pid := Missed(f.r, f.begun)])
    case CountByStatus(pid) =>
      if pid !in s.flights || !s.flights[pid].Missed? || s.flights[pid].r.csv then s
      else
        var f := s.flights[pid];
        s.(flights := s.flights[pid := Counted(f.r, f.begun, s.version, cfg.byStatus(s.version, f.r.user, f.r.role))])
    case CountByMonth(pid) =>
      if pid !in s.flights then s
      else
        var f := s.flights[pid];
        var months := cfg.byMonth(s.version, f.r.user, f.r.role, f.r.months);
        if f.Counted? then
          s.(flights := s.flights[pid := Computed(f.r, f.begun, f.v1, s.version, f.statuses, months)])
        else if f.Missed? && f.r.csv then
          s.(flights := s.flights[pid := Computed(f.r, f.begun, s.version, s.version, [], months)])
        else s
    case Answered(pid, up) =>
      if pid !in s.flights || !s.flights[pid].Computed? then s
      else
        var f := s.flights[pid];
        var body := if f.r.csv then cfg.csv(f.months) else cfg.json(f.statuses, f.months);
        s.(store := if up then s.store[KeyOf(cfg, f.r) := Entry(body, s.clock + TTL)] else s.store,
           saved := if up then s.saved + [Saved(f.r, body, s.clock, f.v1, f.v2, s.version)] else s.saved,
           flights := s.flights - {pid},
           responses := s.responses + [Fresh(f.r, body, f.begun, f.v1, f.v2, s.version)])
    case Crash(pid) => s.(flights := s.flights - {pid})
    case Change => s.(version := s.version + 1)
    case Wait(ms) => s.(clock := s.clock + ms)
    case Evict(key) => s.(store := s.store - {key})
    case Damage(r, body, deadline) =>
      if r.csv || cfg.valid(body) then s else s.(store := s.store[KeyOf(cfg, r) := Entry(body, deadline)])
  }

  function Run(cfg: Config, steps: seq<Step>): Sys {
    if steps == [] then START
    else Next(cfg, Run(cfg, steps[..|steps| - 1]), steps[|steps| - 1])
  }

  function AnswerFrom(cfg: Config, s: Sys, pid: int, upSet: bool): Sys {
    Next(cfg, Next(cfg, Next(cfg, s, CountByStatus(pid)), CountByMonth(pid)), Answered(pid, upSet))
  }

  /** A report of one version of the data. */
  function Snapshot(cfg: Config, r: Request, v: nat): string {
    if r.csv then cfg.csv(cfg.byMonth(v, r.user, r.role, r.months))
    else cfg.json(cfg.byStatus(v, r.user, r.role), cfg.byMonth(v, r.user, r.role, r.months))
  }

  /** A miss that nothing interrupts. */
  lemma MissAlone(cfg: Config, s: Sys, pid: int, upSet: bool)
    requires pid in s.flights && s.flights[pid].Missed?
    ensures var f, s' := s.flights[pid], AnswerFrom(cfg, s, pid, upSet);
      var body := Snapshot(cfg, f.r, s.version);
      && s'.responses == s.responses + [Fresh(f.r, body, f.begun, s.version, s.version, s.version)]
      && s'.store == (if upSet then s.store[KeyOf(cfg, f.r) := Entry(body, s.clock + TTL)] else s.store)
      && s'.clock == s.clock && s'.flights == s.flights - {pid}
  {
  }

  /** After a hit nothing is left to do. */
  lemma HitAlone(cfg: Config, s: Sys, pid: int, upDel: bool, upSet: bool)
    requires pid !in s.flights
    ensures AnswerFrom(cfg, Next(cfg, s, DropCorrupt(pid, upDel)), pid, upSet) == s
  {
  }

  /** The lookup and the deletion of a corrupt entry either answer or leave a miss. */
  lemma LookAlone(cfg: Config, s: Sys, pid: int, r: Request, up: bool, upDel: bool)
    requires pid !in s.flights
    ensures var s1 := Next(cfg, s, Look(pid, r, up));
      var s2 := Next(cfg, s1, DropCorrupt(pid, upDel));
      var found := if up then Lookup(s.store, KeyOf(cfg, r), s.clock) else None;
      if found.Some? && (r.csv || cfg.valid(found.value)) then
        s1 == s.(responses := s.responses + [FromCache(r, found.value, s.clock, s.version)])
      else
        && s2.version == s.version && s2.clock == s.clock && s2.responses == s.responses
        && pid in s2.flights && s2.flights[pid] == Missed(r, s.version)
        && s2.store == if found.Some? && upDel then s.store - {KeyOf(cfg, r)} else s.store
  {
  }

  /** The separate steps of an uninterrupted handler have the effect of the whole request. */
  lemma ReportAlone(cfg: Config, s: Sys, pid: int, r: Request, up: bool, upDel: bool, upSet: bool)
    requires pid !in s.flights
    ensures var s' := AnswerFrom(cfg, Next(cfg, Next(cfg, s, Look(pid, r, up)), DropCorrupt(pid, upDel)), pid, upSet);
      && |s'.responses| == |s.responses| + 1 && s.responses <= s'.responses
      && Served(s'.store, s'.responses[|s.responses|].body) ==
           Serve(cfg.valid, s.store, KeyOf(cfg, r), r.csv, Snapshot(cfg, r, s.version), s.clock, up, upDel, upSet)
  {
    var key, e := KeyOf(cfg, r), Entry(Snapshot(cfg, r, s.version), s.clock + TTL);
    var s1 := Next(cfg, s, Look(pid, r, up));
    LookAlone(cfg, s, pid, r, up, upDel);
    if pid in s1.flights {
      MissAlone(cfg, Next(cfg, s1, DropCorrupt(pid, upDel)), pid, upSet);
      assert (s.store - {key})[key := e] == s.store[key := e];
    } else {
      HitAlone(cfg, s1, pid, upDel, upSet);
    }
  }

  /** The report of the user, role and months asked for, in the format asked for. */
  predicate IsReport(cfg: Config, r: Request, v1: nat, v2: nat, body: string) {
    && (r.csv ==> body == cfg.csv(cfg.byMonth(v2, r.user, r.role, r.months)))
    && (!r.csv ==> body == cfg.json(cfg.byStatus(v1, r.user, r.role), cfg.byMonth(v2, r.user, r.role, r.months)))
  }

  /** An answer that the database gave for this very request, and that was stored after it was read. */
  predicate SavedOk(cfg: Config, a: Saved) {
    a.v1 <= a.v2 <= a.version && IsReport(cfg, a.r, a.v1, a.v2, a.body)
  }

  /** A stored answer that a response of `version` at `at` may repeat. */
  predicate Repeats(a: Saved, r: Request, body: string, at: int, version: nat) {
    a.r == r && a.body == body && a.at <= at <= a.at + TTL && a.version <= version
  }

  /** A stored entry is such an answer, with its expiry, or damaged JSON. */
  ghost predicate EntryOk(cfg: Config, saved: seq<Saved>, key: string, e: Entry) {
    || (exists i :: 0 <= i < |saved| && StoredAs(cfg, saved[i], key, e))
    || (exists r: Request :: IsDamaged(cfg, r, key, e))
  }

  predicate StoredAs(cfg: Config, a: Saved, key: string, e: Entry) {
    key == KeyOf(cfg, a.r) && e == Entry(a.body, a.at + TTL)
  }

  predicate IsDamaged(cfg: Config, r: Request, key: string, e: Entry) {
    !r.csv && key == KeyOf(cfg, r) && !cfg.valid(e.body)
  }

  predicate FlightOk(cfg: Config, s: Sys, f: Flight) {
    match f
    case Corrupt(_, begun) => begun <= s.version
    case Missed(_, begun) => begun <= s.version
    case Counted(r, begun, v1, statuses) =>
      begun <= v1 <= s.version && !r.csv && statuses == cfg.byStatus(v1, r.user, r.role)
    case Computed(r, begun, v1, v2, statuses, months) =>
      && begun <= v1 <= v2 <= s.version && (r.csv || statuses == cfg.byStatus(v1, r.user, r.role))
      && months == cfg.byMonth(v2, r.user, r.role, r.months)
  }

  /** Computed while the request ran, or an answer for the same request stored at most 15 s before. */
  ghost predicate ResponseOk(cfg: Config, s: Sys, a: Response) {
    match a
    case Fresh(r, body, begun, v1, v2, version) => begun <= v1 <= v2 <= version && IsReport(cfg, r, v1, v2, body)
    case FromCache(r, body, at, version) =>
      exists i :: 0 <= i < |s.saved| && Repeats(s.saved[i], r, body, at, version)
  }

  ghost predicate Inv(cfg: Config, s: Sys) {
    && (forall key :: key in s.store ==> EntryOk(cfg, s.saved, key, s.store[key]))
    && (forall pid :: pid in s.flights ==> FlightOk(cfg, s, s.flights[pid]))
    && (forall i :: 0 <= i < |s.saved| ==>
          s.saved[i].at <= s.clock && s.saved[i].version <= s.version && SavedOk(cfg, s.saved[i]))
    && (forall a :: a in s.responses ==> ResponseOk(cfg, s, a))
  }

  /** A hit on the key of a request is an answer stored for that same request. */
  lemma HitIsOwn(cfg: Config, s: Sys, r: Request)
    requires Inv(cfg, s) && KeyOf(cfg, r) in s.store && s.clock <= s.store[KeyOf(cfg, r)].deadline
    requires r.csv || cfg.valid(s.store[KeyOf(cfg, r)].body)
    ensures ResponseOk(cfg, s, FromCache(r, s.store[KeyOf(cfg, r)].body, s.clock, s.version))
  {
    var key, e := KeyOf(cfg, r), s.store[KeyOf(cfg, r)];
    assert EntryOk(cfg, s.saved, key, e);
    if i :| 0 <= i < |s.saved| && StoredAs(cfg, s.saved[i], key, e) {
      KeysDiffer(cfg.prefix, r, s.saved[i].r);
      assert Repeats(s.saved[i], r, e.body, s.clock, s.version);
    } else {
      var damaged: Request :| IsDamaged(cfg, damaged, key, e);
      KeysDiffer(cfg.prefix, r, damaged);
    }
  }

  lemma SavedGrows(cfg: Config, s: Sys, step: Step)
    ensures s.saved <= Next(cfg, s, step).saved
    ensures s.clock <= Next(cfg, s, step).clock && s.version <= Next(cfg, s, step).version
  {
  }

  lemma EntryKept(cfg: Config, saved: seq<Saved>, more: seq<Saved>, key: string, e: Entry)
    requires EntryOk(cfg, saved, key, e) && saved <= more
    ensures EntryOk(cfg, more, key, e)
  {
    if i :| 0 <= i < |saved| && StoredAs(cfg, saved[i], key, e) {
      assert more[i] == saved[i];
    }
  }

  lemma EntryStep(cfg: Config, s: Sys, step: Step, key: string)
    requires key in s.store ==> EntryOk(cfg, s.saved, key, s.store[key])
    requires key in Next(cfg, s, step).store
    ensures EntryOk(cfg, Next(cfg, s, step).saved, key, Next(cfg, s, step).store[key])
  {
    var s' := Next(cfg, s, step);
    SavedGrows(cfg, s, step);
    if key in s.store && s'.store[key] == s.store[key] {
      EntryKept(cfg, s.saved, s'.saved, key, s.store[key]);
    } else if step.Answered? {
      assert StoredAs(cfg, s'.saved[|s.saved|], key, s'.store[key]);
    } else {
      assert IsDamaged(cfg, step.r, key, s'.store[key]);
    }
  }

  lemma ResponseStep(cfg: Config, s: Sys, step: Step, a: Response)
    requires Inv(cfg, s) && a in Next(cfg, s, step).responses
    ensures ResponseOk(cfg, Next(cfg, s, step), a)
  {
    var s' := Next(cfg, s, step);
    SavedGrows(cfg, s, step);
    if a in s.responses {
      assert ResponseOk(cfg, s, a);
      if a.FromCache? {
        var i :| 0 <= i < |s.saved| && Repeats(s.saved[i], a.r, a.body, a.at, a.version);
        assert s'.saved[i] == s.saved[i];
      }
    } else if step.Look? {
      HitIsOwn(cfg, s, step.r);
    } else {
      assert FlightOk(cfg, s, s.flights[step.pid]);
    }
  }

  lemma SavedStep(cfg: Config, s: Sys, step: Step, i: nat)
    requires Inv(cfg, s) && i < |Next(cfg, s, step).saved|
    ensures var s' := Next(cfg, s, step);
      s'.saved[i].at <= s'.clock && s'.saved[i].version <= s'.version && SavedOk(cfg, s'.saved[i])
  {
    var s' := Next(cfg, s, step);
    SavedGrows(cfg, s, step);
    if i < |s.saved| {
      assert s'.saved[i] == s.saved[i];
    } else {
      assert FlightOk(cfg, s, s.flights[step.pid]);
    }
  }

  lemma FlightStep(cfg: Config, s: Sys, step: Step, pid: int)
    requires pid in s.flights ==> FlightOk(cfg, s, s.flights[pid])
    requires pid in Next(cfg, s, step).flights
    ensures FlightOk(cfg, Next(cfg, s, step), Next(cfg, s, step).flights[pid])
  {
    SavedGrows(cfg, s, step);
  }

  lemma InvStep(cfg: Config, s: Sys, step: Step)
    requires Inv(cfg, s)
    ensures Inv(cfg, Next(cfg, s, step))
  {
    forall key | key in Next(cfg, s, step).store {
      EntryStep(cfg, s, step, key);
    }
    forall pid | pid in Next(cfg, s, step).flights {
      FlightStep(cfg, s, step, pid);
    }
    forall i: nat | i < |Next(cfg, s, step).saved| {
      SavedStep(cfg, s, step, i);
    }
    forall a | a in Next(cfg, s, step).responses {
      ResponseStep(cfg, s, step, a);
    }
  }

  lemma {:induction false} InvRun(cfg: Config, steps: seq<Step>)
    ensures Inv(cfg, Run(cfg, steps))
  {
    if steps != [] {
      InvRun(cfg, steps[..|steps| - 1]);
      InvStep(cfg, Run(cfg, steps[..|steps| - 1]), steps[|steps| - 1]);
    }
  }

  /** Refinement: in every run each response is the database's report of the same user, role and months
      in the same format. It was read while the request ran, or stored at most 15 s before the response,
      and then read from versions no newer than the store, which is no newer than the response. */
  lemma EveryResponseGenuine(cfg: Config, steps: seq<Step>, a: Response)
    requires a in Run(cfg, steps).responses
    ensures var saved := Run(cfg, steps).saved;
      match a
      case Fresh(r, body, begun, v1, v2, version) =>
        && begun <= v1 <= v2 <= version
        && (r.csv ==> body == cfg.csv(cfg.byMonth(v2, r.user, r.role, r.months)))
        && (!r.csv ==> body == cfg.json(cfg.byStatus(v1, r.user, r.role), cfg.byMonth(v2, r.user, r.role, r.months)))
      case FromCache(r, body, at, version) =>
        exists i :: 0 <= i < |saved|
          && saved[i].r == r && saved[i].body == body
          && saved[i].at <= at <= saved[i].at + 15_000 && saved[i].v1 <= saved[i].v2 <= saved[i].version <= version
          && (r.csv ==> body == cfg.csv(cfg.byMonth(saved[i].v2, r.user, r.role, r.months)))
          && (!r.csv ==> body == cfg.json(cfg.byStatus(saved[i].v1, r.user, r.role), cfg.byMonth(saved[i].v2, r.user, r.role, r.months)))
  {
    InvRun(cfg, steps);
    assert ResponseOk(cfg, Run(cfg, steps), a);
    if a.FromCache? {
      var i :| 0 <= i < |Run(cfg, steps).saved| && Repeats(Run(cfg, steps).saved[i], a.r, a.body, a.at, a.version);
      assert SavedOk(cfg, Run(cfg, steps).saved[i]);
    }
  }

  /** A stored report answers the same request for 15 s, and not longer. */
  lemma HitWithin(cfg: Config, s: Sys, pid: int, ms: nat, again: int)
    requires pid in s.flights && s.flights[pid].Missed? && again !in s.flights
    requires s.flights[pid].r.csv || cfg.valid(Snapshot(cfg, s.flights[pid].r, s.version))
    ensures var r, s1 := s.flights[pid].r, Next(cfg, AnswerFrom(cfg, s, pid, true), Wait(ms));
      var s2 := Next(cfg, s1, Look(again, r, true));
      && (ms <= 15_000 ==>
            && |s2.responses| == |s.responses| + 2 && s2.responses[|s.responses| + 1].FromCache?
            && s2.responses[|s.responses| + 1].body == s2.responses[|s.responses|].body)
      && (ms > 15_000 ==> again in s2.flights && |s2.responses| == |s.responses| + 1)
  {
    MissAlone(cfg, s, pid, true);
  }

  // ---- When the queries were made

  /** Steps `l` and `j` start a request and count by month for it; for JSON, step `i` between them
      counts by status. */
  predicate Queried(cfg: Config, steps: seq<Step>, pid: int, r: Request, body: string, l: nat, i: nat, j: nat) {
    && l < i <= j < |steps|
    && steps[l].Look? && steps[l].pid == pid && steps[l].r == r
    && steps[j] == CountByMonth(pid)
    && (r.csv ==> body == cfg.csv(cfg.byMonth(Run(cfg, steps[..j]).version, r.user, r.role, r.months)))
    && (!r.csv ==>
          && i < j && steps[i] == CountByStatus(pid)
          && body == cfg.json(cfg.byStatus(Run(cfg, steps[..i]).version, r.user, r.role),
                              cfg.byMonth(Run(cfg, steps[..j]).version, r.user, r.role, r.months)))
  }

  /** A flight keeps its request, or this step starts it. */
  lemma LookStep(cfg: Config, s: Sys, step: Step, pid: int)
    requires pid in Next(cfg, s, step).flights
    ensures if pid in s.flights then Next(cfg, s, step).flights[pid].r == s.flights[pid].r
      else step.Look? && step.pid == pid && step.r == Next(cfg, s, step).flights[pid].r
  {
  }

  /** A flight has its counts by status from an earlier step, or this step makes the query. */
  lemma CountedStep(cfg: Config, s: Sys, step: Step, pid: int)
    requires pid in Next(cfg, s, step).flights && Next(cfg, s, step).flights[pid].Counted?
    ensures pid in s.flights
    ensures var f, f' := s.flights[pid], Next(cfg, s, step).flights[pid];
      || f' == f
      || (&& step == CountByStatus(pid) && f'.r == f.r && !f.r.csv
          && f'.statuses == cfg.byStatus(s.version, f.r.user, f.r.role))
  {
  }

  lemma {:induction false} LookBefore(cfg: Config, steps: seq<Step>, pid: int) returns (l: nat)
    requires pid in Run(cfg, steps).flights
    ensures l < |steps| && steps[l].Look? && steps[l].pid == pid && steps[l].r == Run(cfg, steps).flights[pid].r
  {
    var n := |steps| - 1;
    LookStep(cfg, Run(cfg, steps[..n]), steps[n], pid);
    if pid in Run(cfg, steps[..n]).flights {
      l := LookBefore(cfg, steps[..n], pid);
    } else {
      l := n;
    }
  }

  lemma {:induction false} StatusBefore(cfg: Config, steps: seq<Step>, pid: int) returns (l: nat, i: nat)
    requires pid in Run(cfg, steps).flights && Run(cfg, steps).flights[pid].Counted?
    ensures var f := Run(cfg, steps).flights[pid];
      && l < i < |steps| && steps[l].Look? && steps[l].pid == pid && steps[l].r == f.r && !f.r.csv
      && steps[i] == CountByStatus(pid) && f.statuses == cfg.byStatus(Run(cfg, steps[..i]).version, f.r.user, f.r.role)
  {
    var n := |steps| - 1;
    var s := Run(cfg, steps[..n]);
    CountedStep(cfg, s, steps[n], pid);
    if s.flights[pid] == Run(cfg, steps).flights[pid] {
      l, i := StatusBefore(cfg, steps[..n], pid);
      assert steps[..n][..i] == steps[..i];
    } else {
      l := LookBefore(cfg, steps[..n], pid);
      i := n;
    }
  }

  lemma QueriedLater(cfg: Config, steps: seq<Step>, n: nat, pid: int, r: Request, body: string, l: nat, i: nat, j: nat)
    requires n <= |steps| && Queried(cfg, steps[..n], pid, r, body, l, i, j)
    ensures Queried(cfg, steps, pid, r, body, l, i, j)
  {
    assert steps[..n][..i] == steps[..i] && steps[..n][..j] == steps[..j];
  }

  /** A flight has its counts by month from an earlier step, or this step makes the query. */
  lemma ComputedStep(cfg: Config, s: Sys, step: Step, pid: int)
    requires pid in Next(cfg, s, step).flights && Next(cfg, s, step).flights[pid].Computed?
    ensures pid in s.flights
    ensures var f, f' := s.flights[pid], Next(cfg, s, step).flights[pid];
      || f' == f
      || (&& step == CountByMonth(pid) && f'.r == f.r && f'.months == cfg.byMonth(s.version, f.r.user, f.r.role, f.r.months)
          && ((f.Missed? && f.r.csv) || (f.Counted? && f'.statuses == f.statuses)))
  {
  }

  lemma {:induction false} MonthBefore(cfg: Config, steps: seq<Step>, pid: int) returns (l: nat, i: nat, j: nat)
    requires pid in Run(cfg, steps).flights && Run(cfg, steps).flights[pid].Computed?
    ensures var f := Run(cfg, steps).flights[pid];
      Queried(cfg, steps, pid, f.r, if f.r.csv then cfg.csv(f.months) else cfg.json(f.statuses, f.months), l, i, j)
  {
    var n := |steps| - 1;
    var s := Run(cfg, steps[..n]);
    ComputedStep(cfg, s, steps[n], pid);
    if s.flights[pid] == Run(cfg, steps).flights[pid] {
      var f := s.flights[pid];
      l, i, j := MonthBefore(cfg, steps[..n], pid);
      QueriedLater(cfg, steps, n, pid, f.r, if f.r.csv then cfg.csv(f.months) else cfg.json(f.statuses, f.months), l, i, j);
    } else if s.flights[pid].Counted? {
      l, i := StatusBefore(cfg, steps[..n], pid);
      j := n;
      assert steps[..n][..i] == steps[..i];
    } else {
      l := LookBefore(cfg, steps[..n], pid);
      i, j := n, n;
    }
  }

  /** Whatever was stored or freshly answered was queried for in this order, in one request. */
  lemma {:induction false} SavedHistory(cfg: Config, steps: seq<Step>, m: nat)
      returns (pid: int, l: nat, i: nat, j: nat, k: nat)
    requires m < |Run(cfg, steps).saved|
    ensures var a := Run(cfg, steps).saved[m];
      && j < k < |steps| && steps[k] == Answered(pid, true) && a.at == Run(cfg, steps[..k]).clock
      && Queried(cfg, steps, pid, a.r, a.body, l, i, j)
  {
    var n := |steps| - 1;
    var s := Run(cfg, steps[..n]);
    SavedGrows(cfg, s, steps[n]);
    if m < |s.saved| {
      pid, l, i, j, k := SavedHistory(cfg, steps[..n], m);
      assert steps[..n][..k] == steps[..k];
    } else {
      pid, k := steps[n].pid, n;
      l, i, j := MonthBefore(cfg, steps[..n], pid);
    }
    QueriedLater(cfg, steps, n, pid, Run(cfg, steps).saved[m].r, Run(cfg, steps).saved[m].body, l, i, j);
  }

  lemma {:induction false} FreshHistory(cfg: Config, steps: seq<Step>, m: nat) returns (pid: int, l: nat, i: nat, j: nat)
    requires m < |Run(cfg, steps).responses| && Run(cfg, steps).responses[m].Fresh?
    ensures var a := Run(cfg, steps).responses[m]; Queried(cfg, steps, pid, a.r, a.body, l, i, j)
  {
    var n := |steps| - 1;
    var s := Run(cfg, steps[..n]);
    if m < |s.responses| {
      pid, l, i, j := FreshHistory(cfg, steps[..n], m);
    } else {
      pid := steps[n].pid;
      l, i, j := MonthBefore(cfg, steps[..n], pid);
    }
    QueriedLater(cfg, steps, n, pid, Run(cfg, steps).responses[m].r, Run(cfg, steps).responses[m].body, l, i, j);
  }

  /** In every run the body of each response is the result of queries that one request for the same
      report made after it began: first the counts by status, of the version at that step, then the
      counts by month. A response from the cache comes at most 15 s after that request stored it. */
  lemma EveryResponseQueried(cfg: Config, steps: seq<Step>, m: nat)
    requires m < |Run(cfg, steps).responses|
    ensures var a := Run(cfg, steps).responses[m];
      && (exists pid, l: nat, i: nat, j: nat :: Queried(cfg, steps, pid, a.r, a.body, l, i, j))
      && (a.FromCache? ==>
            exists pid, l: nat, i: nat, j: nat, k: nat ::
              && Queried(cfg, steps, pid, a.r, a.body, l, i, j)
              && j < k < |steps| && steps[k] == Answered(pid, true)
              && Run(cfg, steps[..k]).clock <= a.at <= Run(cfg, steps[..k]).clock + 15_000)
  {
    var a := Run(cfg, steps).responses[m];
    if a.Fresh? {
      var pid, l, i, j := FreshHistory(cfg, steps, m);
    } else {
      EveryResponseGenuine(cfg, steps, a);
      var saved := Run(cfg, steps).saved;
      var n :| 0 <= n < |saved| && saved[n].r == a.r && saved[n].body == a.body && saved[n].at <= a.at <= saved[n].at + 15_000;
      var pid, l, i, j, k := SavedHistory(cfg, steps, n);
    }
  }
}
