/** The fixed-window limiter on one Redis key: the script, the response headers computed from its
    reply, and what the fixed windows imply for every run of requests. Times are in milliseconds. */
module RateLimiter {
  import opened Wrappers
  import opened Sets

  /** A counter and, once PEXPIRE has run, the time at which it expires. */
  datatype Key = Absent | Present(count: int, deadline: Option<int>)

  datatype Reply = Reply(current: int, allowed: bool, pttl: int)

  /** `keepsEdge`: whether the server still serves a key in the very millisecond of its deadline.
      Everything below holds either way. */
  datatype Config = Config(max: int, window: int, keepsEdge: bool)

  /** The key as a command at `now` finds it. */
  function Found(key: Key, now: int, keepsEdge: bool): Key {
    match key
    case Present(_, Some(d)) => if now > d || (now == d && !keepsEdge) then Absent else key
    case _ => key
  }

  function Incr(key: Key): Key {
    match key
    case Absent => Present(1, None)
    case Present(n, d) => Present(n + 1, d)
  }

  /** A non-positive time to live deletes the key at once. */
  function PExpire(key: Key, now: int, ttl: int): Key {
    match key
    case Absent => Absent
    case Present(n, _) => if ttl <= 0 then Absent else Present(n, Some(now + ttl))
  }

  function PTtl(key: Key, now: int): int {
    match key
    case Absent => -2
    case Present(_, None) => -1
    case Present(_, Some(d)) => if d < now then 0 else d - now
  }

  /** The script: INCR, PEXPIRE on the first hit, PTTL. Redis runs it without interruption. */
  function Script(cfg: Config, key: Key, now: int): (Key, Reply) {
    var counted := Incr(Found(key, now, cfg.keepsEdge));
    var current := counted.count;
    var timed := if current == 1 then PExpire(counted, now, cfg.window) else counted;
    (timed, Reply(current, current <= cfg.max, PTtl(timed, now)))
  }

  /** What the middleware answers from a reply. */
  datatype Response = Response(allowed: bool, limit: int, remaining: int, retryAfter: Option<int>)

  /** math.Ceil(pttl / 1000), never negative. */
  function RetryAfter(pttl: int): (seconds: int)
    ensures seconds >= 0 && 1000 * seconds >= pttl
    ensures pttl > 0 ==> 1000 * (seconds - 1) < pttl
  {
    if pttl <= 0 then 0 else (pttl + 999) / 1000
  }

  function Respond(cfg: Config, r: Reply): Response {
    Response(r.allowed, cfg.max, if cfg.max - r.current < 0 then 0 else cfg.max - r.current,
             if r.allowed then None else Some(RetryAfter(r.pttl)))
  }

  /** The limiter in front of one key, as the service calls it. */
  class Limiter {
    var key: Key
    const cfg: Config

    /** Defaults for a missing limit or window; durations are in nanoseconds. */
    constructor (max: int, windowNanos: int, keepsEdge: bool)
      ensures key == Absent
      ensures cfg == Config(if max <= 0 then 120 else max,
                            (if windowNanos <= 0 then 60_000_000_000 else windowNanos) / 1_000_000, keepsEdge)
    {
      var m, w := max, windowNanos;
      if m <= 0 {
        m := 120;
      }
      if w <= 0 {
        w := 60_000_000_000;
      }
      cfg := Config(m, w / 1_000_000, keepsEdge);
      key := Absent;
    }

    method RunScript(now: int) returns (reply: Reply)
      modifies this`key
      ensures (key, reply) == Script(cfg, old(key), now)
    {
      key := Incr(Found(key, now, cfg.keepsEdge));
      var current := key.count;
      if current == 1 {
        key := PExpire(key, now, cfg.window);
      }
      var pttl := PTtl(key, now);
      var allowed := true;
      if current > cfg.max {
        allowed := false;
      }
      reply := Reply(current, allowed, pttl);
    }

    method Handle(now: int) returns (response: Response)
      modifies this`key
      ensures key == Script(cfg, old(key), now).0
      ensures response == Respond(cfg, Script(cfg, old(key), now).1)
    {
      var reply := RunScript(now);
      var remaining := cfg.max - reply.current;
      if remaining < 0 {
        remaining := 0;
      }
      var retryAfter := None;
      if !reply.allowed {
        retryAfter := Some(RetryAfter(reply.pttl));
      }
      response := Response(reply.allowed, cfg.max, remaining, retryAfter);
    }
  }

  // ---- Runs: the requests of one key, by the server's clock

  predicate Ordered(times: seq<int>) {
    forall i, j :: 0 <= i <= j < |times| ==> times[i] <= times[j]
  }

  /** The key after the first n requests. */
  function After(cfg: Config, times: seq<int>, n: nat): Key
    requires n <= |times|
  {
    if n == 0 then Absent else Script(cfg, After(cfg, times, n - 1), times[n - 1]).0
  }

  function ReplyTo(cfg: Config, times: seq<int>, i: nat): Reply
    requires i < |times|
  {
    Script(cfg, After(cfg, times, i), times[i]).1
  }

  /** The request that opened the window of request i. */
  function Opener(cfg: Config, times: seq<int>, i: nat): (s: nat)
    requires i < |times|
    ensures s <= i
  {
    if i == 0 || ReplyTo(cfg, times, i).current == 1 then i else Opener(cfg, times, i - 1)
  }

  /** A window of at least one millisecond (after the conversion to milliseconds). */
  predicate Usable(cfg: Config) {
    cfg.max >= 1 && cfg.window >= 1
  }

  /** The key always has an expiry, set when its window opened: later requests only count up. */
  lemma {:induction false} WindowState(cfg: Config, times: seq<int>, i: nat)
    requires Usable(cfg) && Ordered(times) && i < |times|
    ensures var s := Opener(cfg, times, i);
      && After(cfg, times, i + 1) == Present(i - s + 1, Some(times[s] + cfg.window))
      && ReplyTo(cfg, times, i).current == i - s + 1
      && times[s] <= times[i] <= times[s] + cfg.window
      && (!cfg.keepsEdge ==> times[i] < times[s] + cfg.window)
      && Opener(cfg, times, s) == s
  {
    if i > 0 {
      WindowState(cfg, times, i - 1);
    }
  }

  /** A new window opens only after the previous one has run out. */
  lemma WindowsApart(cfg: Config, times: seq<int>, s: nat)
    requires Usable(cfg) && Ordered(times) && 0 < s < |times| && Opener(cfg, times, s) == s
    ensures var p := Opener(cfg, times, s - 1);
      && times[s] >= times[p] + cfg.window
      && (cfg.keepsEdge ==> times[s] > times[p] + cfg.window)
  {
    WindowState(cfg, times, s);
    WindowState(cfg, times, s - 1);
  }

  lemma {:induction false} OpenerMonotone(cfg: Config, times: seq<int>, i: nat, j: nat)
    requires i <= j < |times|
    ensures Opener(cfg, times, i) <= Opener(cfg, times, j)
    ensures Opener(cfg, times, j) <= i ==> Opener(cfg, times, j) == Opener(cfg, times, i)
  {
    if i < j {
      OpenerMonotone(cfg, times, i, j - 1);
    }
  }

  /** Of each window exactly the first `max` requests are allowed, and Remaining says how many more
      that window will allow, however many requests come. */
  lemma FirstMaxAllowed(cfg: Config, times: seq<int>, i: nat)
    requires Usable(cfg) && Ordered(times) && i < |times|
    ensures var s, r := Opener(cfg, times, i), Respond(cfg, ReplyTo(cfg, times, i));
      && (r.allowed <==> i < s + cfg.max)
      && r.remaining == (if s + cfg.max - 1 - i > 0 then s + cfg.max - 1 - i else 0)
      && forall j :: i < j < |times| && Opener(cfg, times, j) == s ==>
           (ReplyTo(cfg, times, j).allowed <==> j <= i + r.remaining)
  {
    WindowState(cfg, times, i);
    forall j | i < j < |times| && Opener(cfg, times, j) == Opener(cfg, times, i)
      ensures ReplyTo(cfg, times, j).current == j - Opener(cfg, times, i) + 1
    {
      WindowState(cfg, times, j);
    }
  }

  /** A rejected request leaves the deadline where it was; and a request more than Retry-After
      seconds later belongs to another window. */
  lemma RetryAfterSuffices(cfg: Config, times: seq<int>, i: nat, j: nat)
    requires Usable(cfg) && Ordered(times) && i <= j < |times|
    requires !ReplyTo(cfg, times, i).allowed
    ensures i > 0 && After(cfg, times, i).Present? && After(cfg, times, i + 1).Present?
    ensures After(cfg, times, i + 1).deadline == After(cfg, times, i).deadline
    ensures var r := Respond(cfg, ReplyTo(cfg, times, i));
      r.retryAfter.Some? &&
      (times[j] > times[i] + 1000 * r.retryAfter.value ==> Opener(cfg, times, j) > i)
  {
    WindowState(cfg, times, i);
    WindowState(cfg, times, i - 1);
    WindowState(cfg, times, j);
    OpenerMonotone(cfg, times, i, j);
  }

  /** The headers state the limit and the shortest whole number of seconds after which a rejected client
      is sure of another window: one millisecond later it has one, a second earlier it has not. */
  lemma RetryAfterTight(cfg: Config, times: seq<int>, i: nat, j: nat)
    requires Usable(cfg) && Ordered(times) && i <= j < |times|
    requires !ReplyTo(cfg, times, i).allowed
    ensures var r := Respond(cfg, ReplyTo(cfg, times, i));
      && r.limit == cfg.max && r.retryAfter.Some? && r.retryAfter.value >= 0
      && (times[j] >= times[i] + 1000 * r.retryAfter.value + 1 ==> Opener(cfg, times, j) > i)
      && (r.retryAfter.value > 0 && times[j] <= times[i] + 1000 * (r.retryAfter.value - 1) ==>
            Opener(cfg, times, j) == Opener(cfg, times, i))
  {
    RetryAfterSuffices(cfg, times, i, j);
    WindowState(cfg, times, i);
    OpenerMonotone(cfg, times, i, j);
    var r := Respond(cfg, ReplyTo(cfg, times, i));
    if r.retryAfter.value > 0 && times[j] <= times[i] + 1000 * (r.retryAfter.value - 1) {
      if Opener(cfg, times, j) > i {
        OpenersApart(cfg, times, i, Opener(cfg, times, j));
        WindowState(cfg, times, j);
      }
    }
  }

  /** The allowed requests at times from `x` to `y`, both included. */
  function AllowedIn(cfg: Config, times: seq<int>, x: int, y: int): set<int> {
    set i | 0 <= i < |times| && x <= times[i] <= y && ReplyTo(cfg, times, i).allowed
  }

  /** The places of the first `max` requests of the window opened by request s. */
  function Quota(s: int, max: nat): (r: set<int>)
    ensures forall i :: i in r <==> s <= i < s + max
    ensures |r| == max
  {
    if max == 0 then {} else Quota(s, max - 1) + {s + max - 1}
  }

  lemma AllowedInQuota(cfg: Config, times: seq<int>, i: nat)
    requires Usable(cfg) && Ordered(times) && i < |times| && ReplyTo(cfg, times, i).allowed
    ensures i in Quota(Opener(cfg, times, i), cfg.max)
  {
    WindowState(cfg, times, i);
  }

  /** Windows that differ open at least `window` apart. */
  lemma OpenersApart(cfg: Config, times: seq<int>, i: nat, t: nat)
    requires Usable(cfg) && Ordered(times) && i < t < |times| && Opener(cfg, times, t) == t
    ensures var s := Opener(cfg, times, i);
      && times[t] >= times[s] + cfg.window
      && (cfg.keepsEdge ==> times[t] > times[s] + cfg.window)
  {
    WindowsApart(cfg, times, t);
    OpenerMonotone(cfg, times, i, t - 1);
  }

  /** An interval of length `window` never meets three windows. */
  lemma NoThirdWindow(cfg: Config, times: seq<int>, a: nat, b: nat, c: nat)
    requires Usable(cfg) && Ordered(times) && a < |times| && b < |times| && c < |times|
    requires Opener(cfg, times, a) < Opener(cfg, times, b) < Opener(cfg, times, c)
    ensures times[c] > times[a] + cfg.window
  {
    var t, u := Opener(cfg, times, b), Opener(cfg, times, c);
    WindowState(cfg, times, a);
    WindowState(cfg, times, b);
    WindowState(cfg, times, c);
    OpenersApart(cfg, times, Opener(cfg, times, a), t);
    OpenersApart(cfg, times, t, u);
  }

  lemma {:induction false} LeastMember(s: set<int>) returns (m: int)
    requires s != {}
    ensures m in s && forall i :: i in s ==> m <= i
  {
    SomeMember(s);
    var x :| x in s;
    if s == {x} {
      m := x;
    } else {
      SameOrSmaller(s, x);
      var rest := LeastMember(s - {x});
      m := if x < rest then x else rest;
      assert forall i :: i in s ==> i == x || i in s - {x};
    }
  }

  lemma SameOrSmaller(s: set<int>, x: int)
    requires x in s
    ensures s == {x} || s - {x} != {}
  {
    if s - {x} == {} {
      forall i
        ensures i in s <==> i in {x}
      {
        assert i in s && i != x ==> i in s - {x};
      }
    }
  }

  /** The allowed requests of an interval lie in the quotas of at most two windows. */
  lemma TwoQuotas(cfg: Config, times: seq<int>, x: int, y: int) returns (a: nat, b: nat)
    requires Usable(cfg) && Ordered(times) && y <= x + cfg.window && AllowedIn(cfg, times, x, y) != {}
    ensures a in AllowedIn(cfg, times, x, y) && b in AllowedIn(cfg, times, x, y) && a < |times| && b < |times|
    ensures Opener(cfg, times, a) <= Opener(cfg, times, b)
    ensures forall i :: i in AllowedIn(cfg, times, x, y) ==>
      i in Quota(Opener(cfg, times, a), cfg.max) || i in Quota(Opener(cfg, times, b), cfg.max)
  {
    var allowed := AllowedIn(cfg, times, x, y);
    a := LeastMember(allowed);
    b := a;
    if i :| i in allowed && Opener(cfg, times, i) != Opener(cfg, times, a) {
      b := i;
    }
    OpenerMonotone(cfg, times, a, b);
    forall i | i in allowed
      ensures i in Quota(Opener(cfg, times, a), cfg.max) || i in Quota(Opener(cfg, times, b), cfg.max)
    {
      OpenerMonotone(cfg, times, a, i);
      AllowedInQuota(cfg, times, i);
      if Opener(cfg, times, i) != Opener(cfg, times, a) && Opener(cfg, times, i) != Opener(cfg, times, b) {
        if Opener(cfg, times, b) < Opener(cfg, times, i) {
          NoThirdWindow(cfg, times, a, b, i);
        } else {
          NoThirdWindow(cfg, times, a, i, b);
        }
      }
    }
  }

  /** In every run, an interval no longer than `window`, ends included, has at most 2 * max allowed
      requests; one that is a millisecond shorter has at most 2 * max - 1. */
  lemma AtMostTwiceMax(cfg: Config, times: seq<int>, x: int, y: int)
    requires Usable(cfg) && Ordered(times) && y <= x + cfg.window
    ensures |AllowedIn(cfg, times, x, y)| <= 2 * cfg.max
    ensures y < x + cfg.window ==> |AllowedIn(cfg, times, x, y)| <= 2 * cfg.max - 1
  {
    var allowed := AllowedIn(cfg, times, x, y);
    if allowed != {} {
      var a, b := TwoQuotas(cfg, times, x, y);
      var s, t := Opener(cfg, times, a), Opener(cfg, times, b);
      var first, second := Quota(s, cfg.max), Quota(t, cfg.max);
      if s == t {
        Within(allowed, first);
      } else if y < x + cfg.window {
        WindowState(cfg, times, a);
        WindowState(cfg, times, b);
        OpenersApart(cfg, times, s, t);
        assert s in first && s !in allowed;
        Within(allowed, (first - {s}) + second);
      } else {
        Within(allowed, first + second);
      }
    }
  }

  lemma Within(a: set<int>, b: set<int>)
    requires forall i :: i in a ==> i in b
    ensures |a| <= |b|
  {
    forall i | i in a
      ensures i in b
    {
    }
    SubsetSize(a, b);
  }

  /** One early request, max - 1 at the end of its window, max at the start of the next. */
  function Burst(cfg: Config): seq<int>
    requires cfg.max >= 1
  {
    seq(2 * cfg.max, i => if i == 0 then 0 else if i < cfg.max then cfg.window - 1 else cfg.window + 1)
  }

  lemma {:induction false} BurstState(cfg: Config, n: nat)
    requires cfg.max >= 1 && cfg.window >= 3 && 1 <= n <= 2 * cfg.max
    ensures After(cfg, Burst(cfg), n) ==
      if n <= cfg.max then Present(n, Some(cfg.window)) else Present(n - cfg.max, Some(2 * cfg.window + 1))
  {
    if n > 1 {
      BurstState(cfg, n - 1);
    }
  }

  lemma BurstAllowed(cfg: Config, i: nat)
    requires cfg.max >= 1 && cfg.window >= 3 && 1 <= i < 2 * cfg.max
    ensures i in AllowedIn(cfg, Burst(cfg), 2, cfg.window + 1)
  {
    BurstState(cfg, i);
    BurstState(cfg, i + 1);
  }

  /** The bound 2 * max - 1 is reached. */
  lemma BoundReached(cfg: Config)
    requires cfg.max >= 1 && cfg.window >= 3
    ensures Ordered(Burst(cfg))
    ensures |AllowedIn(cfg, Burst(cfg), 2, cfg.window + 1)| == 2 * cfg.max - 1
  {
    var n := 2 * cfg.max - 1;
    var allowed, all := AllowedIn(cfg, Burst(cfg), 2, cfg.window + 1), Quota(1, n);
    forall i | i in all
      ensures i in allowed
    {
      BurstAllowed(cfg, i);
    }
    Within(all, allowed);
    AtMostTwiceMax(cfg, Burst(cfg), 2, cfg.window + 1);
  }

  ghost predicate NeverLimits(cfg: Config) {
    forall times, i :: Ordered(times) && 0 <= i < |times| ==> ReplyTo(cfg, times, i).allowed
  }

  lemma {:induction false} DeletedAtOnce(cfg: Config, times: seq<int>, n: nat)
    requires cfg.window < 1 && n <= |times|
    ensures After(cfg, times, n) == Absent
  {
    if n > 0 {
      DeletedAtOnce(cfg, times, n - 1);
    }
  }

  /** A window shorter than a millisecond, and only such a window, limits nothing at all. */
  lemma LimitsIffWindowCounts(cfg: Config)
    requires cfg.max >= 1
    ensures NeverLimits(cfg) <==> cfg.window < 1
  {
    if cfg.window < 1 {
      forall times, i | Ordered(times) && 0 <= i < |times|
        ensures ReplyTo(cfg, times, i).allowed
      {
        DeletedAtOnce(cfg, times, i);
      }
    } else {
      var times := seq(cfg.max + 1, _ => 0);
      WindowState(cfg, times, cfg.max);
      assert Opener(cfg, times, cfg.max) == 0 by {
        if Opener(cfg, times, cfg.max) > 0 {
          WindowsApart(cfg, times, Opener(cfg, times, cfg.max));
        }
      }
      assert !ReplyTo(cfg, times, cfg.max).allowed;
    }
  }
}
