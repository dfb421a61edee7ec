/**
 * Sliding-window rate limiting: per provider, the times of the calls it
 * accepted. A call is accepted when fewer than 60 of those times lie within
 * the last minute.
 */
module RateLimit {
  const RateLimitWindow: int := 60 * 1000
  const MaxRequests: int := 60

  /** The `rateLimits` map. */
  type Table = map<string, seq<int>>

  /** `rateLimits.get(provider) || []`. */
  function Requests(t: Table, provider: string): seq<int> {
    if provider in t then t[provider] else []
  }

  predicate InWindow(time: int, now: int) {
    now - time < RateLimitWindow
  }

  /**
   * `requests.filter(time => now - time < RATE_LIMIT_WINDOW)`: the times
   * within the window, in their old order (RecentCounts says which).
   */
  function Recent(requests: seq<int>, now: int): (r: seq<int>)
    ensures |r| <= |requests|
    ensures forall i :: 0 <= i < |r| ==> InWindow(r[i], now)
  {
    if requests == [] then []
    else
      var last := requests[|requests| - 1];
      Recent(requests[..|requests| - 1], now) + (if InWindow(last, now) then [last] else [])
  }

  /** The filter keeps every time within the window as often as it occurred, and no other. */
  lemma {:induction false} RecentCounts(requests: seq<int>, now: int, time: int)
    ensures multiset(Recent(requests, now))[time] == if InWindow(time, now) then multiset(requests)[time] else 0
  {
    if requests != [] {
      var front, last := requests[..|requests| - 1], requests[|requests| - 1];
      RecentCounts(front, now, time);
      assert requests == front + [last];
    }
  }

  /** What checkRateLimit returns, and the table it leaves. */
  datatype Decision = Decision(allowed: bool, table: Table)

  /**
   * checkRateLimit at time `now`: refused, with nothing changed, when 60 or
   * more recent calls are on record; otherwise accepted, and the provider's
   * list becomes the recent calls followed by `now`. Other providers are
   * never touched.
   */
  function Check(t: Table, provider: string, now: int): (r: Decision)
    ensures r.allowed <==> |Recent(Requests(t, provider), now)| < MaxRequests
    ensures !r.allowed ==> r.table == t
    ensures r.allowed ==> r.table == t[provider := Recent(Requests(t, provider), now) + [now]]
    ensures r.allowed ==> |r.table[provider]| <= MaxRequests
    ensures r.allowed ==> forall i :: 0 <= i < |r.table[provider]| ==> InWindow(r.table[provider][i], now)
  {
    var recentRequests := Recent(Requests(t, provider), now);
    if |recentRequests| >= MaxRequests then Decision(false, t)
    else Decision(true, t[provider := recentRequests + [now]])
  }

  /** Every list holds at most 60 times, none later than `clock`. */
  ghost predicate Bounded(t: Table, clock: int) {
    forall q :: q in t ==> |t[q]| <= MaxRequests && forall i :: 0 <= i < |t[q]| ==> t[q][i] <= clock
  }

  /** With a clock that does not go back, every call keeps the table bounded. */
  lemma CheckKeepsBounded(t: Table, clock: int, provider: string, now: int)
    requires Bounded(t, clock) && clock <= now
    ensures Bounded(Check(t, provider, now).table, now)
  {
    var list := Requests(t, provider);
    var kept := Recent(list, now);
    forall i | 0 <= i < |kept|
      ensures kept[i] <= now
    {
      var x := kept[i];
      assert x in multiset(kept);
      RecentCounts(list, now, x);
      assert x in list;
    }
    var d := Check(t, provider, now);
    if d.allowed {
      assert d.table[provider] == kept + [now];
    }
  }

  /** A list whose times all lie in the window is kept whole. */
  lemma {:induction false} RecentKeepsAll(requests: seq<int>, now: int)
    requires forall i :: 0 <= i < |requests| ==> InWindow(requests[i], now)
    ensures Recent(requests, now) == requests
  {
    if requests != [] {
      var front := requests[..|requests| - 1];
      RecentKeepsAll(front, now);
      assert requests == front + [requests[|requests| - 1]];
    }
  }

  /** A list whose times all lie a full window back or more is emptied. */
  lemma {:induction false} RecentDropsAll(requests: seq<int>, now: int)
    requires forall i :: 0 <= i < |requests| ==> !InWindow(requests[i], now)
    ensures Recent(requests, now) == []
  {
    if requests != [] {
      RecentDropsAll(requests[..|requests| - 1], now);
    }
  }

  /** `n` calls of checkRateLimit for one provider, all at time `now`. */
  function Burst(t: Table, provider: string, now: int, n: nat): (nat, Table) {
    if n == 0 then (0, t)
    else
      var before := Burst(t, provider, now, n - 1);
      var d := Check(before.1, provider, now);
      (before.0 + (if d.allowed then 1 else 0), d.table)
  }

  /**
   * However many calls arrive at the same instant, exactly as many are
   * accepted as there is room for under the cap: never more than 60.
   */
  lemma {:induction false} BurstAccepts(t: Table, provider: string, now: int, n: nat)
    ensures var room := MaxRequests - |Recent(Requests(t, provider), now)|;
      Burst(t, provider, now, n).0 == if room <= 0 then 0 else if n <= room then n else room
    ensures |Recent(Requests(Burst(t, provider, now, n).1, provider), now)|
         == |Recent(Requests(t, provider), now)| + Burst(t, provider, now, n).0
  {
    if n > 0 {
      BurstAccepts(t, provider, now, n - 1);
      var before := Burst(t, provider, now, n - 1).1;
      var kept := Recent(Requests(before, provider), now);
      var d := Check(before, provider, now);
      assert Burst(t, provider, now, n).1 == d.table;
      if d.allowed {
        RecentKeepsAll(kept + [now], now);
        assert Requests(d.table, provider) == kept + [now];
      } else {
        assert d.table == before;
      }
    }
  }
}
