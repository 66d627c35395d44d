/**
 * The per-client sliding-window rate limiter of RateLimitMiddleware
 * (internal/api/middleware/middleware.go): for each client address a list
 * of the times of its accepted requests; a request is refused once the
 * last minute already holds `requestsPerMinute` of them.
 */
module RateLimit {
  import opened Clock

  /** The times still inside the window at `now`, in their order. */
  function Recent(times: seq<Time>, now: Time): (r: seq<Time>)
    ensures |r| <= |times|
  {
    if |times| == 0 then []
    else (if now - times[0] < Minute then [times[0]] else []) + Recent(times[1..], now)
  }

  /** Recent keeps exactly the times younger than a minute. */
  lemma {:induction false} RecentMembers(times: seq<Time>, now: Time, t: Time)
    ensures t in Recent(times, now) <==> t in times && now - t < Minute
  {
    if |times| > 0 {
      RecentMembers(times[1..], now, t);
      assert times == [times[0]] + times[1..];
    }
  }

  /** Pruning twice at the same instant is pruning once. */
  lemma {:induction false} RecentIdempotent(times: seq<Time>, now: Time)
    ensures Recent(Recent(times, now), now) == Recent(times, now)
  {
    if |times| > 0 {
      RecentIdempotent(times[1..], now);
      var rest := Recent(times[1..], now);
      if now - times[0] < Minute {
        var r := Recent(times, now);
        assert r == [times[0]] + rest;
        assert r[0] == times[0] && r[1..] == rest;
        assert Recent(r, now) == [times[0]] + Recent(rest, now);
      } else {
        assert Recent(times, now) == rest;
      }
    }
  }

  /** Pruning distributes over an appended request. */
  lemma {:induction false} RecentAppend(times: seq<Time>, t: Time, now: Time)
    ensures Recent(times + [t], now) == Recent(times, now) + (if now - t < Minute then [t] else [])
  {
    if |times| == 0 {
      assert times + [t] == [t];
    } else {
      assert (times + [t])[1..] == times[1..] + [t];
      RecentAppend(times[1..], t, now);
    }
  }

  /**
   * One request from `ip` at `now`: the client's list, if it has one, is
   * pruned; the request is accepted iff fewer than `limit` times remain,
   * and only then is `now` appended. Gives the decision and the new map.
   */
  function Step(clients: map<string, seq<Time>>, limit: int, ip: string, now: Time): (r: (bool, map<string, seq<Time>>))
    ensures r.0 <==> |if ip in clients then Recent(clients[ip], now) else []| < limit
    ensures ip in r.1 <==> ip in clients || r.0
  {
    var pruned := if ip in clients then clients[ip := Recent(clients[ip], now)] else clients;
    var count := if ip in pruned then |pruned[ip]| else 0;
    if count >= limit then (false, pruned)
    else (true, pruned[ip := (if ip in pruned then pruned[ip] else []) + [now]])
  }

  /** No client ever holds more times than the limit allows (none at all when the limit is not positive). */
  ghost predicate Bounded(clients: map<string, seq<Time>>, limit: int) {
    forall ip :: ip in clients ==> |clients[ip]| <= (if limit > 0 then limit else 0)
  }

  /** A step keeps every list within the limit. */
  lemma {:induction false} StepKeepsBound(clients: map<string, seq<Time>>, limit: int, ip: string, now: Time)
    requires Bounded(clients, limit)
    ensures Bounded(Step(clients, limit, ip, now).1, limit)
  {
    var (accepted, after) := Step(clients, limit, ip, now);
    forall other | other in after
      ensures |after[other]| <= (if limit > 0 then limit else 0)
    {
      if other == ip && ip in clients {
        assert |Recent(clients[ip], now)| <= |clients[ip]|;
      }
    }
  }

  /** An accepted request adds exactly one time, to its own client; a refused one adds none. */
  lemma StepAppendsOnlyOnAccept(clients: map<string, seq<Time>>, limit: int, ip: string, now: Time)
    ensures var (accepted, after) := Step(clients, limit, ip, now);
      var before := if ip in clients then Recent(clients[ip], now) else [];
      (accepted ==> after[ip] == before + [now])
      && (!accepted ==> (ip in after ==> after[ip] == before) && |before| >= limit)
      && (forall other :: other != ip ==> (other in after <==> other in clients) && (other in after ==> after[other] == clients[other]))
  {
  }

  /** With a limit of 0 or less every request is refused. */
  lemma NonPositiveLimitRefusesAll(clients: map<string, seq<Time>>, limit: int, ip: string, now: Time)
    requires limit <= 0
    ensures !Step(clients, limit, ip, now).0
  {
  }

  /** A client whose window is empty is accepted whenever the limit is positive. */
  lemma FirstRequestAccepted(clients: map<string, seq<Time>>, limit: int, ip: string, now: Time)
    requires limit > 0 && ip !in clients
    ensures Step(clients, limit, ip, now) == (true, clients[ip := [now]])
  {
    assert [] + [now] == [now];
  }

  class RateLimiter {
    const requestsPerMinute: int
    var clients: map<string, seq<Time>>

    ghost predicate Valid()
      reads this
    {
      Bounded(clients, requestsPerMinute)
    }

    constructor (requestsPerMinute: int)
      ensures this.requestsPerMinute == requestsPerMinute && clients == map[] && Valid()
    {
      this.requestsPerMinute := requestsPerMinute;
      clients := map[];
    }

    /** The pruning loop: the times of `times` younger than a minute at `now`, in order. */
    static method Prune(times: seq<Time>, now: Time) returns (valid: seq<Time>)
      ensures valid == Recent(times, now)
    {
      valid := [];
      var k := |times|;
      while k > 0
        invariant 0 <= k <= |times|
        invariant valid == Recent(times[k..], now)
      {
        k := k - 1;
        assert times[k..][1..] == times[k + 1..];
        valid := (if now - times[k] < Minute then [times[k]] else []) + valid;
      }
      assert times[0..] == times;
    }

    /** RateLimitMiddleware for one request: the decision and the new map are Step's. */
    method Handle(ip: string, now: Time) returns (accepted: bool)
      requires Valid()
      modifies this
      ensures Valid()
      ensures (accepted, clients) == Step(old(clients), requestsPerMinute, ip, now)
    {
      StepKeepsBound(clients, requestsPerMinute, ip, now);
      if ip in clients {
        var valid := Prune(clients[ip], now);
        clients := clients[ip := valid];
      }
      var count := if ip in clients then |clients[ip]| else 0;
      if count >= requestsPerMinute {
        return false;
      }
      clients := clients[ip := (if ip in clients then clients[ip] else []) + [now]];
      accepted := true;
    }
  }
}
