/**
 * The in-memory rate limiters of app.py: a per-IP list of call timestamps
 * (`login_attempts`, `webhook_hits`, both `defaultdict(list)`), pruned to a
 * sliding window on every call and appended to when the call is let through.
 * `time.time()` is the parameter `now`, in whole seconds.
 */
module RateLimit {

  /** Defaults of `rate_limit_login`. */
  const LoginMaxAttempts: nat := 5
  const LoginWindow: int := 300

  /** Defaults of `rate_limit_webhook`. */
  const WebhookMaxHits: nat := 30
  const WebhookWindow: int := 60

  /** `[t for t in ts if now - t < window]`. */
  function Recent(ts: seq<int>, now: int, window: int): (r: seq<int>)
    ensures forall t :: multiset(r)[t] == if now - t < window then multiset(ts)[t] else 0
    ensures forall t :: t in r <==> t in ts && now - t < window
    ensures |r| <= |ts|
  {
    if ts == [] then []
    else
      assert ts == [ts[0]] + ts[1..];
      (if now - ts[0] < window then [ts[0]] else []) + Recent(ts[1..], now, window)
  }

  /** Whether a call at `now` is let through: fewer than `limit` recent calls. */
  predicate Admits(ts: seq<int>, now: int, limit: nat, window: int)
  {
    |Recent(ts, now, window)| < limit
  }

  /** The IP's list after a call at `now`. */
  function NextLog(ts: seq<int>, now: int, limit: nat, window: int): (r: seq<int>)
    ensures window > 0 ==> forall t :: t in r ==> now - t < window
    ensures forall t :: t in r ==> t in ts || t == now
    ensures Admits(ts, now, limit, window) ==> now in r
    ensures !Admits(ts, now, limit, window) ==> now in r ==> now in ts
    ensures |ts| <= limit ==> |r| <= limit
  {
    var kept := Recent(ts, now, window);
    if |kept| < limit then kept + [now] else kept
  }

  /** How many of the calls at the times `nows`, made one after another from `log`, are let through. */
  function AdmittedCount(log: seq<int>, nows: seq<int>, limit: nat, window: int): nat
    decreases |nows|
  {
    if nows == [] then 0
    else
      (if Admits(log, nows[0], limit, window) then 1 else 0)
        + AdmittedCount(NextLog(log, nows[0], limit, window), nows[1..], limit, window)
  }

  /** Calls made in order of time and all within one window of each other. */
  ghost predicate OneWindow(nows: seq<int>, window: int)
  {
    forall i, j :: 0 <= i < j < |nows| ==> 0 <= nows[j] - nows[i] < window
  }

  lemma RecentKeeps(log: seq<int>, admitted: multiset<int>, now: int, window: int)
    requires admitted <= multiset(log)
    requires forall t :: t in admitted ==> now - t < window
    ensures admitted <= multiset(Recent(log, now, window))
    ensures |admitted| <= |Recent(log, now, window)|
  {
    var kept := Recent(log, now, window);
    forall t ensures admitted[t] <= multiset(kept)[t] {
      if admitted[t] > 0 {
        assert t in admitted;
      }
    }
    assert multiset(kept) == admitted + (multiset(kept) - admitted);
  }

  lemma {:induction false} AdmittedAtMostLimit(log: seq<int>, nows: seq<int>, limit: nat, window: int, admitted: multiset<int>)
    requires window > 0 && OneWindow(nows, window)
    requires admitted <= multiset(log) && |admitted| <= limit
    requires forall t, i :: t in admitted && 0 <= i < |nows| ==> 0 <= nows[i] - t < window
    ensures |admitted| + AdmittedCount(log, nows, limit, window) <= limit
    decreases |nows|
  {
    if nows != [] {
      var now := nows[0];
      var kept := Recent(log, now, window);
      RecentKeeps(log, admitted, now, window);
      var rest := nows[1..];
      assert OneWindow(rest, window) by {
        forall i, j | 0 <= i < j < |rest| ensures 0 <= rest[j] - rest[i] < window {
          assert rest[i] == nows[i + 1] && rest[j] == nows[j + 1];
        }
      }
      if |kept| < limit {
        var more := admitted + multiset{now};
        assert more <= multiset(kept + [now]);
        forall t, i | t in more && 0 <= i < |rest| ensures 0 <= rest[i] - t < window {
          assert rest[i] == nows[i + 1];
          if t == now {
            assert 0 <= nows[i + 1] - nows[0] < window;
          }
        }
        AdmittedAtMostLimit(kept + [now], rest, limit, window, more);
      } else {
        forall t, i | t in admitted && 0 <= i < |rest| ensures 0 <= rest[i] - t < window {
          assert rest[i] == nows[i + 1];
        }
        AdmittedAtMostLimit(kept, rest, limit, window, admitted);
      }
    }
  }

  /**
   * The limiter's promise: whatever the IP's list held before, of any calls
   * that fall within one window of each other, at most `limit` are let through.
   */
  lemma AtMostLimitPerWindow(log: seq<int>, nows: seq<int>, limit: nat, window: int)
    requires window > 0 && OneWindow(nows, window)
    ensures AdmittedCount(log, nows, limit, window) <= limit
  {
    AdmittedAtMostLimit(log, nows, limit, window, multiset{});
  }

  /** One limiter's module-level dict of IP to timestamps. */
  class SlidingWindow {
    var hits: map<string, seq<int>>

    constructor ()
      ensures hits == map[]
      ensures forall ip :: Log(ip) == []
    {
      hits := map[];
    }

    /** `hits[ip]` of a `defaultdict(list)`: an unseen IP has the empty list. */
    function Log(ip: string): seq<int>
      reads this
    {
      if ip in hits then hits[ip] else []
    }

    /** No IP's list is longer than `limit`. */
    ghost predicate Bounded(limit: nat)
      reads this
    {
      forall ip :: ip in hits ==> |hits[ip]| <= limit
    }

    /**
     * `rate_limit_login` / `rate_limit_webhook`: prune the IP's list to the
     * window, refuse when `limit` calls remain, otherwise record `now`. Only
     * the IP's own list changes.
     */
    method Allow(ip: string, now: int, limit: nat, window: int) returns (ok: bool)
      modifies this
      ensures ok == Admits(old(Log(ip)), now, limit, window)
      ensures hits == old(hits)[ip := NextLog(old(Log(ip)), now, limit, window)]
      ensures !ok ==> hits[ip] == Recent(old(Log(ip)), now, window)
      ensures forall other :: other != ip ==> Log(other) == old(Log(other))
      ensures old(Bounded(limit)) ==> Bounded(limit)
    {
      hits := hits[ip := Recent(Log(ip), now, window)];
      if |hits[ip]| >= limit {
        return false;
      }
      hits := hits[ip := hits[ip] + [now]];
      return true;
    }
  }

  /** `rate_limit_login(ip)` with its defaults, 5 attempts per 300 s. */
  method RateLimitLogin(loginAttempts: SlidingWindow, ip: string, now: int) returns (ok: bool)
    modifies loginAttempts
    ensures ok == Admits(old(loginAttempts.Log(ip)), now, LoginMaxAttempts, LoginWindow)
    ensures loginAttempts.hits == old(loginAttempts.hits)[ip := NextLog(old(loginAttempts.Log(ip)), now, LoginMaxAttempts, LoginWindow)]
  {
    ok := loginAttempts.Allow(ip, now, LoginMaxAttempts, LoginWindow);
  }

  /** `rate_limit_webhook(ip)` with its defaults, 30 hits per 60 s. */
  method RateLimitWebhook(webhookHits: SlidingWindow, ip: string, now: int) returns (ok: bool)
    modifies webhookHits
    ensures ok == Admits(old(webhookHits.Log(ip)), now, WebhookMaxHits, WebhookWindow)
    ensures webhookHits.hits == old(webhookHits.hits)[ip := NextLog(old(webhookHits.Log(ip)), now, WebhookMaxHits, WebhookWindow)]
  {
    ok := webhookHits.Allow(ip, now, WebhookMaxHits, WebhookWindow);
  }
}
