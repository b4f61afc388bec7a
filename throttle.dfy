/**
 * The fixed-window request throttle of the HTTP middleware.
 *
 * Every request whose path starts with a key of the `Limits` table is
 * counted in a shared store under the key "rate<path>:<ip>". The first
 * increment in a window gives the counter a time-to-live of the limiter's
 * duration; once the counter is above the limiter's count, the request is
 * refused. A store that cannot increment refuses the request (fail-closed).
 */
module Throttle {
  import opened Wrappers

  /** The largest value a store counter (a signed 64-bit integer) can hold. */
  const MaxInt64: int := 0x7fff_ffff_ffff_ffff

  /** At most `count` requests per window of `duration` seconds. */
  datatype Limiter = Limiter(duration: int, count: int)

  /** The store key under which one client's requests to one path are counted. */
  function RateKey(path: string, ip: string): (key: string)
  {
    "rate" + path + ":" + ip
  }

  /** The counter key keeps the whole path: two different paths of one client never share a counter. */
  lemma DistinctPathsDistinctKeys(path1: string, path2: string, ip: string)
    requires path1 != path2
    ensures RateKey(path1, ip) != RateKey(path2, ip)
  {
    var key1, key2 := RateKey(path1, ip), RateKey(path2, ip);
    if |path1| == |path2| {
      assert key1[4..4 + |path1|] == path1;
      assert key2[4..4 + |path2|] == path2;
    } else {
      assert |key1| != |key2|;
    }
  }

  /**
   * The key-value store the counters live in. `counters` holds the integer
   * value of every existing key, `ttl` the time-to-live (in seconds) that
   * was set on a key, if any.
   */
  class Store {
    var counters: map<string, int>
    var ttl: map<string, int>

    /** Counters are created by increments only; a time-to-live sits on an existing key. */
    ghost predicate Valid()
      reads this
    {
      && ttl.Keys <= counters.Keys
      && forall key :: key in counters ==> 1 <= counters[key] <= MaxInt64
    }

    constructor ()
      ensures Valid()
      ensures counters == map[] && ttl == map[]
    {
      counters := map[];
      ttl := map[];
    }

    /** The value of a counter; a missing key reads as 0. */
    function Get(key: string): (n: int)
      reads this
      ensures Valid() ==> 0 <= n <= MaxInt64
      ensures Valid() ==> (n == 0 <==> key !in counters)
    {
      if key in counters then counters[key] else 0
    }

    /**
     * INCR: adds one to the counter (a missing key counts from 0) and returns
     * the new value. It fails, changing nothing, when the store cannot be
     * reached (`fault`) or when the increment would overflow 64 bits.
     */
    method Incr(key: string, fault: bool) returns (r: Option<int>)
      requires Valid()
      modifies this
      ensures Valid() && ttl == old(ttl)
      ensures fault || old(Get(key)) == MaxInt64 ==> r == None && counters == old(counters)
      ensures !fault && old(Get(key)) < MaxInt64 ==>
        r == Some(old(Get(key)) + 1) && counters == old(counters)[key := old(Get(key)) + 1]
    {
      var before := Get(key);
      if fault || before == MaxInt64 {
        return None;
      }
      counters := counters[key := before + 1];
      r := Some(before + 1);
    }

    /**
     * EXPIRE: gives an existing key a time-to-live of `seconds`; a
     * non-positive time-to-live deletes the key at once. A missing key, or a
     * store that cannot be reached (`fault`), leaves everything as it was.
     */
    method Expire(key: string, seconds: int, fault: bool)
      requires Valid()
      modifies this
      ensures Valid()
      ensures fault || key !in old(counters) ==> counters == old(counters) && ttl == old(ttl)
      ensures !fault && key in old(counters) && seconds > 0 ==>
        counters == old(counters) && ttl == old(ttl)[key := seconds]
      ensures !fault && key in old(counters) && seconds <= 0 ==>
        counters == old(counters) - {key} && ttl == old(ttl) - {key}
    {
      if fault || key !in counters {
        return;
      }
      if seconds > 0 {
        ttl := ttl[key := seconds];
      } else {
        counters := counters - {key};
        ttl := ttl - {key};
      }
    }

    /**
     * The time-to-live of `key` runs out: the key disappears, and the next
     * increment starts a new window. A key without a time-to-live never expires.
     */
    method Elapse(key: string)
      requires Valid()
      modifies this
      ensures Valid()
      ensures key in old(ttl) ==> counters == old(counters) - {key} && ttl == old(ttl) - {key}
      ensures key !in old(ttl) ==> counters == old(counters) && ttl == old(ttl)
    {
      if key in ttl {
        counters := counters - {key};
        ttl := ttl - {key};
      }
    }
  }

  /**
   * What one call of `RateLimit` with limiter `l` does to the counter `key`
   * of `store` and what it answers (`blocked`), given whether the increment
   * and the expiry request reach the store.
   */
  twostate predicate CountedRequest(store: Store, l: Limiter, key: string,
                                    incrFault: bool, expireFault: bool, blocked: bool)
    reads store
  {
    var before := old(store.Get(key));
    if incrFault || before == MaxInt64 then
      // a failed increment blocks and changes nothing
      && blocked
      && store.counters == old(store.counters) && store.ttl == old(store.ttl)
    else
      && blocked == (before + 1 > l.count)
      && (before != 0 || expireFault ==>
            // later requests of the window never touch the time-to-live
            store.counters == old(store.counters)[key := before + 1] && store.ttl == old(store.ttl))
      && (before == 0 && !expireFault && l.duration > 0 ==>
            // the first request of a window opens it for `duration` seconds
            store.counters == old(store.counters)[key := 1] && store.ttl == old(store.ttl)[key := l.duration])
      && (before == 0 && !expireFault && l.duration <= 0 ==>
            store.counters == old(store.counters) && store.ttl == old(store.ttl))
  }

  /**
   * Counts one request of client `ip` to `path` against limiter `l` and
   * answers whether it is blocked. `incrFault` and `expireFault` stand for
   * the two store calls failing.
   */
  method RateLimit(l: Limiter, store: Store, ip: string, path: string,
                   incrFault: bool, expireFault: bool) returns (blocked: bool)
    requires store.Valid()
    modifies store
    ensures store.Valid()
    ensures CountedRequest(store, l, RateKey(path, ip), incrFault, expireFault, blocked)
  {
    var key := RateKey(path, ip);
    var count := store.Incr(key, incrFault);
    if count.None? {
      return true;
    }
    if count.value == 1 {
      store.Expire(key, l.duration, expireFault);
    }
    blocked := count.value > l.count;
  }

  /** The answers of the first `n` requests of one window, the i-th answer at index i - 1. */
  function WindowOutcomes(l: Limiter, n: nat): (outcomes: seq<bool>)
    ensures |outcomes| == n
  {
    if n == 0 then [] else WindowOutcomes(l, n - 1) + [n > l.count]
  }

  /** The number of requests in `outcomes` that were let through. */
  function Passed(outcomes: seq<bool>): (k: nat)
    ensures k <= |outcomes|
  {
    if outcomes == [] then 0
    else Passed(outcomes[..|outcomes| - 1]) + (if outcomes[|outcomes| - 1] then 0 else 1)
  }

  /** Within one window, the i-th request is blocked exactly when i exceeds the limiter's count. */
  lemma {:induction false} NthRequestBlocked(l: Limiter, n: nat, i: nat)
    requires 1 <= i <= n
    ensures WindowOutcomes(l, n)[i - 1] == (i > l.count)
  {
    if i < n {
      NthRequestBlocked(l, n - 1, i);
    }
  }

  /** Exactly `count` requests of a window pass (all of them when fewer arrive). */
  lemma {:induction false} ExactlyCountPass(l: Limiter, n: nat)
    requires l.count >= 0
    ensures Passed(WindowOutcomes(l, n)) == if n <= l.count then n else l.count
  {
    if n > 0 {
      ExactlyCountPass(l, n - 1);
      assert WindowOutcomes(l, n)[..n - 1] == WindowOutcomes(l, n - 1);
    }
  }

  /**
   * `n` requests of one client to one path in one window whose counter did
   * not exist, with a store that answers every call: the answers are
   * `WindowOutcomes`, the counter ends at `n`, and its time-to-live is the
   * one the first request set.
   */
  method Window(l: Limiter, store: Store, ip: string, path: string, n: nat)
    returns (outcomes: seq<bool>)
    requires store.Valid()
    requires RateKey(path, ip) !in store.counters
    requires l.duration > 0 && n <= MaxInt64
    modifies store
    ensures store.Valid()
    ensures outcomes == WindowOutcomes(l, n)
    ensures n == 0 ==> store.counters == old(store.counters) && store.ttl == old(store.ttl)
    ensures n > 0 ==> store.counters == old(store.counters)[RateKey(path, ip) := n]
    ensures n > 0 ==> store.ttl == old(store.ttl)[RateKey(path, ip) := l.duration]
  {
    var key := RateKey(path, ip);
    outcomes := [];
    var i := 0;
    while i < n
      invariant 0 <= i <= n
      invariant store.Valid()
      invariant outcomes == WindowOutcomes(l, i)
      invariant i == 0 ==> store.counters == old(store.counters) && store.ttl == old(store.ttl)
      invariant i > 0 ==> store.counters == old(store.counters)[key := i]
      invariant i > 0 ==> store.ttl == old(store.ttl)[key := l.duration]
    {
      var blocked := RateLimit(l, store, ip, path, false, false);
      outcomes := outcomes + [blocked];
      i := i + 1;
    }
  }

  /** The limiters of the API, keyed by path prefix. */
  const Limits: map<string, Limiter> := map[
    "/login" := Limiter(10, 5),
    "/anonymous" := Limiter(60, 15),
    "/card" := Limiter(1, 5),
    "/user" := Limiter(1, 1),
    "/package" := Limiter(1, 2),
    "/quota" := Limiter(1, 2),
    "/buy" := Limiter(1, 2),
    "/subscribe" := Limiter(1, 2),
    "/subscription" := Limiter(1, 2),
    "/chat" := Limiter(1, 5),
    "/conversation" := Limiter(1, 5),
    "/invite" := Limiter(7200, 20),
    "/v1" := Limiter(1, 600),
    "/generation" := Limiter(1, 5),
    "/article" := Limiter(1, 5)
  ]

  /** No key is a prefix of another. */
  ghost predicate PrefixFree(keys: set<string>)
  {
    forall k1, k2 :: k1 in keys && k2 in keys && k1 != k2 ==> !(k1 <= k2)
  }

  /** Key `k` of `p` is a prefix of `s`. */
  ghost predicate Matches<T>(k: string, s: string, p: map<string, T>)
  {
    k in p && k <= s
  }

  /** Every limiter of the table has a positive window and lets at least one request through. */
  lemma LimitsPositive()
    ensures forall k :: k in Limits ==> Limits[k].duration > 0 && Limits[k].count > 0
  {
  }

  /** No path prefix of the table is a prefix of another one. */
  lemma LimitsPrefixFree()
    ensures PrefixFree(Limits.Keys)
  {
    // The keys already differ in their first two letters after the slash,
    // except "/subscribe" and "/subscription", which differ in their eighth.
    forall k1, k2 | k1 in Limits && k2 in Limits && k1 != k2
      ensures !(k1 <= k2)
    {
      assert 3 <= |k1| && 3 <= |k2|;
      if k1[1] != k2[1] {
        DifferAt(k1, k2, 1);
      } else if k1[2] != k2[2] {
        DifferAt(k1, k2, 2);
      } else {
        assert 9 <= |k1| && 9 <= |k2| && k1[8] != k2[8];
        DifferAt(k1, k2, 8);
      }
    }
  }

  /** Strings that differ at a position neither of them ends before are not prefixes of each other. */
  lemma DifferAt(a: string, b: string, i: nat)
    requires i < |a| && i < |b| && a[i] != b[i]
    ensures !(a <= b)
  {
  }

  /** In a prefix-free table at most one key matches any string. */
  lemma AtMostOneMatch<T>(s: string, p: map<string, T>, k1: string, k2: string)
    requires PrefixFree(p.Keys)
    requires Matches(k1, s, p) && Matches(k2, s, p)
    ensures k1 == k2
  {
  }

  /** The value of the key of `p` that is a prefix of `s`, when there is one (any one). */
  ghost function Match<T>(s: string, p: map<string, T>): (r: Option<T>)
  {
    if exists k :: Matches(k, s, p) then
      var k :| Matches(k, s, p); Some(p[k])
    else
      None
  }

  /**
   * Looks for a key of `p` that is a prefix of `s` and returns its value;
   * the keys are tried in an unspecified order, so with several matching
   * keys any of their values may come back.
   */
  method GetPrefixMap<T>(s: string, p: map<string, T>) returns (r: Option<T>)
    ensures r.Some? ==> exists k :: Matches(k, s, p) && p[k] == r.value
    ensures r.None? <==> forall k :: k in p ==> !Matches(k, s, p)
    ensures PrefixFree(p.Keys) ==> r == Match(s, p)
  {
    var untried := p.Keys;
    while untried != {}
      invariant untried <= p.Keys
      invariant forall k :: k in p.Keys - untried ==> !Matches(k, s, p)
      decreases untried
    {
      var k :| k in untried;
      if k <= s {
        r := Some(p[k]);
        if PrefixFree(p.Keys) {
          assert Matches(k, s, p);
          forall j | Matches(j, s, p)
            ensures j == k
          {
            AtMostOneMatch(s, p, j, k);
          }
        }
        return;
      }
      untried := untried - {k};
    }
    r := None;
  }

  /**
   * The middleware's decision for one request: abort it when a limiter
   * of the table matches its path and that limiter blocks it. Without a
   * matching limiter nothing is counted.
   */
  method Middleware(store: Store, ip: string, path: string, incrFault: bool, expireFault: bool)
    returns (abort: bool)
    requires store.Valid()
    modifies store
    ensures store.Valid()
    ensures Match(path, Limits).None? ==>
      !abort && store.counters == old(store.counters) && store.ttl == old(store.ttl)
    ensures Match(path, Limits).Some? ==>
      CountedRequest(store, Match(path, Limits).value, RateKey(path, ip), incrFault, expireFault, abort)
  {
    LimitsPrefixFree();
    var limiter := GetPrefixMap(path, Limits);
    abort := false;
    if limiter.Some? {
      abort := RateLimit(limiter.value, store, ip, path, incrFault, expireFault);
    }
  }
}
