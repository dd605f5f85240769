/** The gateway's sliding-window rate limiter. */
module RateLimiter {
  import opened Common

  const WINDOW: real := 60.0

  datatype Tier = Auth | Commands | General

  datatype Key = Key(client: string, tier: Tier, scope: string)

  datatype Settings = Settings(enabled: bool, login: int, orders: int, general: int)

  datatype Verdict = Allowed | Denied(retryAfter: int) | IndexError

  function LimitFor(s: Settings, tier: Tier): int {
    match tier
    case Auth => s.login
    case Commands => s.orders
    case General => s.general
  }

  /** Each tier has its own setting. */
  lemma TierLimits(enabled: bool, login: int, orders: int, general: int)
    ensures var s := Settings(enabled, login, orders, general);
            LimitFor(s, Auth) == login && LimitFor(s, Commands) == orders && LimitFor(s, General) == general
  {
  }

  function Ceil(x: real): int {
    -((-x).Floor)
  }

  /** The queue without the timestamps at its front that are no later than `cutoff`. */
  function Evict(q: seq<real>, cutoff: real): seq<real> {
    if q != [] && q[0] <= cutoff then Evict(q[1..], cutoff) else q
  }

  function Decide(q: seq<real>, limit: int, now: real): Verdict {
    var recent := Evict(q, now - WINDOW);
    if |recent| < limit then Allowed
    else if recent == [] then IndexError
    else Denied(Max(1, Ceil(recent[0] + WINDOW - now)))
  }

  function QueueAfter(q: seq<real>, limit: int, now: real): seq<real> {
    var recent := Evict(q, now - WINDOW);
    if |recent| < limit then recent + [now] else recent
  }

  /** `defaultdict(deque)`. */
  function QueueOf(history: map<Key, seq<real>>, key: Key): seq<real> {
    if key in history then history[key] else []
  }

  class RateLimiter {
    const settings: Settings
    var history: map<Key, seq<real>>

    constructor (settings: Settings)
      ensures this.settings == settings && history == map[]
    {
      this.settings := settings;
      history := map[];
    }

    method CheckRateLimit(key: Key, now: real) returns (verdict: Verdict)
      modifies this
      ensures !settings.enabled ==> verdict == Allowed && history == old(history)
      ensures settings.enabled ==>
                && verdict == Decide(QueueOf(old(history), key), LimitFor(settings, key.tier), now)
                && history == old(history)[key := QueueAfter(QueueOf(old(history), key), LimitFor(settings, key.tier), now)]
    {
      if !settings.enabled {
        return Allowed;
      }
      var limit := LimitFor(settings, key.tier);
      var queue := QueueOf(history, key);
      while queue != [] && queue[0] <= now - WINDOW
        invariant Evict(queue, now - WINDOW) == Evict(QueueOf(old(history), key), now - WINDOW)
      {
        queue := queue[1..];
      }
      history := history[key := queue];
      if |queue| >= limit {
        if queue == [] {
          return IndexError;
        }
        return Denied(Max(1, Ceil(queue[0] + WINDOW - now)));
      }
      history := history[key := queue + [now]];
      return Allowed;
    }
  }

  // ---- whole runs of one key ----

  /** The limiter's memory of a key, and everything it ever granted. */
  datatype Log = Log(queue: seq<real>, grants: seq<real>)

  function Run(times: seq<real>, limit: int): Log {
    if times == [] then Log([], [])
    else
      var before, now := Run(times[..|times| - 1], limit), times[|times| - 1];
      Log(QueueAfter(before.queue, limit, now),
          if Decide(before.queue, limit, now) == Allowed then before.grants + [now] else before.grants)
  }

  ghost predicate Ordered(times: seq<real>) {
    forall i, j :: 0 <= i < j < |times| ==> times[i] <= times[j]
  }

  /** The requests so far, then one more at `now`. */
  ghost predicate Clock(times: seq<real>, now: real) {
    Ordered(times) && forall i :: 0 <= i < |times| ==> times[i] <= now
  }

  lemma {:induction false} EvictAppend(q: seq<real>, cutoff: real, x: real)
    requires x > cutoff
    ensures Evict(q + [x], cutoff) == Evict(q, cutoff) + [x]
  {
    if q != [] && q[0] <= cutoff {
      EvictAppend(q[1..], cutoff, x);
      assert (q + [x])[1..] == q[1..] + [x];
    }
  }

  lemma {:induction false} EvictTwice(q: seq<real>, a: real, b: real)
    requires a <= b
    ensures Evict(Evict(q, a), b) == Evict(q, b)
  {
    if q != [] && q[0] <= a {
      EvictTwice(q[1..], a, b);
    }
  }

  lemma {:induction false} EvictIsSuffix(q: seq<real>, cutoff: real)
    ensures |Evict(q, cutoff)| <= |q| && Evict(q, cutoff) == q[|q| - |Evict(q, cutoff)|..]
    ensures forall i :: 0 <= i < |q| - |Evict(q, cutoff)| ==> q[i] <= cutoff
    ensures Evict(q, cutoff) != [] ==> Evict(q, cutoff)[0] > cutoff
  {
    if q != [] && q[0] <= cutoff {
      EvictIsSuffix(q[1..], cutoff);
      forall i | 0 <= i < |q| - |Evict(q, cutoff)|
        ensures q[i] <= cutoff
      {
        if i > 0 {
          assert q[i] == q[1..][i - 1];
        }
      }
    }
  }

  /** So at any later time it yields the same window as the whole list of grants. */
  lemma RecentFromGrants(times: seq<real>, limit: int, now: real)
    requires Clock(times, now)
    requires times == [] ==> Run(times, limit).queue == Run(times, limit).grants
    requires times != [] ==> Run(times, limit).queue == Evict(Run(times, limit).grants, times[|times| - 1] - WINDOW)
    ensures Evict(Run(times, limit).queue, now - WINDOW) == Evict(Run(times, limit).grants, now - WINDOW)
  {
    if times != [] {
      EvictTwice(Run(times, limit).grants, times[|times| - 1] - WINDOW, now - WINDOW);
    }
  }

  /** The queue keeps exactly the grants of the last window: forgetting the others loses nothing. */
  lemma {:induction false} QueueIsRecentGrants(times: seq<real>, limit: int)
    requires Ordered(times)
    ensures times == [] ==> Run(times, limit).queue == Run(times, limit).grants
    ensures times != [] ==> Run(times, limit).queue == Evict(Run(times, limit).grants, times[|times| - 1] - WINDOW)
  {
    if times != [] {
      var n := |times| - 1;
      var before, now := Run(times[..n], limit), times[n];
      QueueIsRecentGrants(times[..n], limit);
      RecentFromGrants(times[..n], limit, now);
      EvictTwice(before.grants, now - WINDOW, now - WINDOW);
      EvictAppend(before.grants, now - WINDOW, now);
    }
  }

  /** The verdict depends on the grants alone. */
  lemma DecidedByGrants(times: seq<real>, limit: int, now: real)
    requires Clock(times, now)
    ensures Decide(Run(times, limit).queue, limit, now) == Decide(Run(times, limit).grants, limit, now)
  {
    QueueIsRecentGrants(times, limit);
    RecentFromGrants(times, limit, now);
  }

  /** Grants are in order, and any `limit + 1` of them span a whole window. */
  ghost predicate Spaced(grants: seq<real>, limit: nat) {
    forall i :: 0 <= i < |grants| - limit ==> grants[i] + WINDOW <= grants[i + limit]
  }

  ghost predicate SpacedUpTo(grants: seq<real>, limit: nat, last: real) {
    Ordered(grants) && Spaced(grants, limit) && forall i :: 0 <= i < |grants| ==> grants[i] <= last
  }

  /** A grant at `now`, given when fewer than `limit` others are recent, keeps the spacing. */
  lemma SpacedAppend(grants: seq<real>, limit: nat, last: real, now: real)
    requires SpacedUpTo(grants, limit, last) && last <= now && |Evict(grants, now - WINDOW)| < limit
    ensures SpacedUpTo(grants + [now], limit, now)
  {
    EvictIsSuffix(grants, now - WINDOW);
    var all := grants + [now];
    forall i | 0 <= i < |all| - limit
      ensures all[i] + WINDOW <= all[i + limit]
    {
      if i + limit < |grants| {
        assert grants[i] + WINDOW <= grants[i + limit];
      }
    }
  }

  lemma {:induction false} GrantsAreSpaced(times: seq<real>, limit: nat)
    requires Ordered(times) && limit > 0
    ensures times == [] ==> Run(times, limit).grants == []
    ensures times != [] ==> SpacedUpTo(Run(times, limit).grants, limit, times[|times| - 1])
    ensures Ordered(Run(times, limit).grants) && Spaced(Run(times, limit).grants, limit)
  {
    if times != [] {
      var n := |times| - 1;
      var grants, now := Run(times[..n], limit).grants, times[n];
      GrantsAreSpaced(times[..n], limit);
      DecidedByGrants(times[..n], limit, now);
      if Decide(grants, limit, now) == Allowed {
        SpacedAppend(grants, limit, if n == 0 then now else times[n - 1], now);
      }
    }
  }

  /** The grants in the window that ends at `hi`, the start excluded. */
  function InWindow(grants: seq<real>, hi: real): seq<real> {
    if grants == [] then []
    else
      var rest, g := InWindow(grants[..|grants| - 1], hi), grants[|grants| - 1];
      if hi - WINDOW < g <= hi then rest + [g] else rest
  }

  lemma {:induction false} InWindowAtMost(grants: seq<real>, hi: real, m: nat)
    requires m <= |grants|
    requires forall i :: 0 <= i < m ==> grants[i] <= hi - WINDOW
    ensures |InWindow(grants, hi)| <= |grants| - m
  {
    if m < |grants| {
      InWindowAtMost(grants[..|grants| - 1], hi, m);
    } else if grants != [] {
      InWindowAtMost(grants[..|grants| - 1], hi, m - 1);
    }
  }

  /** No window of sixty seconds, wherever it lies, holds more than `limit` grants. */
  lemma {:induction false} SpacedWindows(grants: seq<real>, limit: nat, hi: real)
    requires Ordered(grants) && Spaced(grants, limit) && limit > 0
    ensures |InWindow(grants, hi)| <= limit
  {
    if |grants| > limit {
      var n := |grants| - 1;
      if grants[n] > hi {
        SpacedWindows(grants[..n], limit, hi);
      } else {
        forall i | 0 <= i < |grants| - limit
          ensures grants[i] <= hi - WINDOW
        {
          assert grants[i] + WINDOW <= grants[i + limit];
        }
        InWindowAtMost(grants, hi, |grants| - limit);
      }
    } else {
      InWindowAtMost(grants, hi, 0);
    }
  }

  /** The window is the sixty seconds up to and including its end. */
  lemma {:induction false} WindowCounts(grants: seq<real>, hi: real, g: real)
    ensures multiset(InWindow(grants, hi))[g] == if hi - 60.0 < g <= hi then multiset(grants)[g] else 0
  {
    if grants != [] {
      var n := |grants| - 1;
      WindowCounts(grants[..n], hi, g);
      assert grants == grants[..n] + [grants[n]];
    }
  }

  lemma AtMostLimitPerWindow(times: seq<real>, limit: nat, hi: real)
    requires Ordered(times) && limit > 0
    ensures |InWindow(Run(times, limit).grants, hi)| <= limit
  {
    GrantsAreSpaced(times, limit);
    SpacedWindows(Run(times, limit).grants, limit, hi);
  }

  lemma {:induction false} WindowIsRecent(grants: seq<real>, hi: real)
    requires Clock(grants, hi)
    ensures InWindow(grants, hi) == Evict(grants, hi - WINDOW)
  {
    if grants != [] {
      var n := |grants| - 1;
      WindowIsRecent(grants[..n], hi);
      if grants[n] > hi - WINDOW {
        EvictAppend(grants[..n], hi - WINDOW, grants[n]);
        assert grants == grants[..n] + [grants[n]];
      } else {
        EvictIsSuffix(grants, hi - WINDOW);
        EvictIsSuffix(grants[..n], hi - WINDOW);
      }
    }
  }

  /** A request is denied exactly when the window that ends with it already holds `limit` grants. */
  lemma DeniedExactlyWhenFull(times: seq<real>, limit: nat, now: real)
    requires Clock(times, now) && limit > 0
    ensures Decide(Run(times, limit).queue, limit, now).Denied? <==> |InWindow(Run(times, limit).grants, now)| == limit
    ensures Decide(Run(times, limit).queue, limit, now) != IndexError
  {
    var grants := Run(times, limit).grants;
    GrantsAreSpaced(times, limit);
    DecidedByGrants(times, limit, now);
    WindowIsRecent(grants, now);
    AtMostLimitPerWindow(times, limit, now);
  }

  lemma FullWindow(times: seq<real>, limit: nat, now: real)
    requires limit > 0 && Clock(times, now) && Decide(Run(times, limit).queue, limit, now).Denied?
    ensures |Evict(Run(times, limit).grants, now - WINDOW)| == limit
  {
    DeniedExactlyWhenFull(times, limit, now);
    GrantsAreSpaced(times, limit);
    WindowIsRecent(Run(times, limit).grants, now);
  }

  lemma RetryOnGrants(grants: seq<real>, limit: nat, now: real, t: real)
    requires limit > 0 && now <= t && |Evict(grants, now - WINDOW)| == limit
    ensures Decide(grants, limit, now).Denied? && Decide(grants, limit, now).retryAfter >= 1
    ensures t >= now + Decide(grants, limit, now).retryAfter as real ==> Decide(grants, limit, t) == Allowed
    ensures Decide(grants, limit, now).retryAfter > 1 && t <= now + (Decide(grants, limit, now).retryAfter - 1) as real
            ==> Decide(grants, limit, t).Denied?
  {
    EvictTwice(grants, now - WINDOW, t - WINDOW);
    EvictIsSuffix(Evict(grants, now - WINDOW), t - WINDOW);
  }

  /** After a denial, a request at `t` that follows no further grant is let through once `retryAfter`
      seconds have passed; one second less would not have done. */
  lemma RetryAfterIsExact(times: seq<real>, limit: nat, now: real, between: seq<real>, t: real)
    requires limit > 0 && Clock(times, now) && Decide(Run(times, limit).queue, limit, now).Denied?
    requires Clock(times + [now] + between, t)
    requires Run(times + [now] + between, limit).grants == Run(times, limit).grants
    ensures var wait := Decide(Run(times, limit).queue, limit, now).retryAfter;
            var verdict := Decide(Run(times + [now] + between, limit).queue, limit, t);
            && wait >= 1
            && (t >= now + wait as real ==> verdict == Allowed)
            && (wait > 1 && t <= now + (wait - 1) as real ==> verdict.Denied?)
  {
    DecidedByGrants(times, limit, now);
    DecidedByGrants(times + [now] + between, limit, t);
    assert (times + [now] + between)[|times|] == now;
    FullWindow(times, limit, now);
    RetryOnGrants(Run(times, limit).grants, limit, now, t);
  }

  /** After any run a request fails with an index error exactly when the limit is zero or less, which the
      settings admit; with such a limit nothing is ever granted. */
  lemma {:induction false} NoLimitNoService(times: seq<real>, limit: int, now: real)
    ensures Decide(Run(times, limit).queue, limit, now) == IndexError <==> limit <= 0
    ensures limit <= 0 ==> Run(times, limit) == Log([], [])
  {
    if times != [] {
      NoLimitNoService(times[..|times| - 1], limit, now);
    }
  }

  // ---- many keys ----

  datatype Request = Request(key: Key, at: real)

  /** The history after a run of requests to the enabled limiter. */
  function History(s: Settings, requests: seq<Request>): map<Key, seq<real>> {
    if requests == [] then map[]
    else
      var before, r := History(s, requests[..|requests| - 1]), requests[|requests| - 1];
      before[r.key := QueueAfter(QueueOf(before, r.key), LimitFor(s, r.key.tier), r.at)]
  }

  function TimesOf(requests: seq<Request>, key: Key): seq<real> {
    if requests == [] then []
    else
      var before, r := TimesOf(requests[..|requests| - 1], key), requests[|requests| - 1];
      if r.key == key then before + [r.at] else before
  }

  /** Every key is limited as if it were alone. */
  lemma {:induction false} KeysAreIndependent(s: Settings, requests: seq<Request>, key: Key)
    ensures QueueOf(History(s, requests), key) == Run(TimesOf(requests, key), LimitFor(s, key.tier)).queue
  {
    if requests != [] {
      var n := |requests| - 1;
      KeysAreIndependent(s, requests[..n], key);
      var before := TimesOf(requests[..n], key);
      assert (before + [requests[n].at])[..|before|] == before;
    }
  }
}
