/**
 * The sliding-window rate limiter (backend/python/middleware/rate_limit_middleware.py).
 * Every clock reading is a parameter; `admitted` is the history the buckets are trimmed from.
 */
module RateLimiter {
  import opened Text

  // ---- Windows over a sorted history ----

  predicate Sorted(s: seq<real>) {
    forall i, j :: 0 <= i < j < |s| ==> s[i] <= s[j]
  }

  /** The entries newer than `cutoff`, as the list comprehension of `_trim` keeps them. */
  function Recent(s: seq<real>, cutoff: real): seq<real> {
    if s == [] then []
    else if s[0] > cutoff then [s[0]] + Recent(s[1..], cutoff)
    else Recent(s[1..], cutoff)
  }

  /** How many entries lie in the window (from, to]. */
  function InWindow(s: seq<real>, from: real, to: real): nat {
    if s == [] then 0
    else InWindow(s[1..], from, to) + (if from < s[0] <= to then 1 else 0)
  }

  /** Among any `max` + 1 entries in a row the last is at least `window` after the first. */
  predicate Spaced(s: seq<real>, max: nat, window: real) {
    forall i :: max <= i < |s| ==> s[i - max] <= s[i] - window
  }

  /** On a sorted history trimming drops a prefix. */
  lemma {:induction false} RecentIsSuffix(s: seq<real>, cutoff: real) returns (k: nat)
    requires Sorted(s)
    ensures k <= |s| && Recent(s, cutoff) == s[k..]
    ensures forall i :: 0 <= i < k ==> s[i] <= cutoff
    ensures forall i :: k <= i < |s| ==> s[i] > cutoff
  {
    if s == [] {
      k := 0;
    } else {
      var k' := RecentIsSuffix(s[1..], cutoff);
      assert forall i :: 0 <= i < |s[1..]| ==> s[1..][i] >= s[0];
      if s[0] > cutoff {
        k := 0;
        assert Recent(s, cutoff) == s;
      } else {
        k := k' + 1;
        assert s[1..][k'..] == s[k..];
      }
    }
  }

  /** Trimming again with a later cutoff is trimming the whole history with it. */
  lemma {:induction false} RecentTwice(s: seq<real>, old': real, new': real)
    requires old' <= new'
    ensures Recent(Recent(s, old'), new') == Recent(s, new')
  {
    if s != [] {
      RecentTwice(s[1..], old', new');
      if s[0] > old' {
        assert Recent(s, old')[1..] == Recent(s[1..], old');
      }
    }
  }

  lemma {:induction false} RecentAppend(s: seq<real>, x: real, cutoff: real)
    ensures Recent(s + [x], cutoff) == Recent(s, cutoff) + (if x > cutoff then [x] else [])
  {
    if s == [] {
      assert s + [x] == [x];
    } else {
      assert (s + [x])[1..] == s[1..] + [x];
      RecentAppend(s[1..], x, cutoff);
    }
  }

  lemma {:induction false} InWindowBounds(s: seq<real>, from: real, to: real)
    requires Sorted(s)
    ensures InWindow(s, from, to) <= |s|
    ensures s != [] && from < s[0] && s[|s| - 1] <= to ==> InWindow(s, from, to) == |s|
    ensures s != [] && s[0] > to ==> InWindow(s, from, to) == 0
  {
    if |s| > 1 { assert s[1] == s[1..][0] && s[0] <= s[1]; }
    if s != [] { InWindowBounds(s[1..], from, to); }
  }

  /** Spacing bounds every window: at most `max` entries lie in (t - window, t]. */
  lemma {:induction false} WindowBound(s: seq<real>, max: nat, window: real, t: real)
    requires Sorted(s) && Spaced(s, max, window) && window > 0.0
    ensures InWindow(s, t - window, t) <= max
  {
    if s == [] {
    } else if s[0] <= t - window || s[0] > t {
      SpacedTail(s, max, window);
      WindowBound(s[1..], max, window, t);
    } else {
      StartsInside(s, max, window, t);
    }
  }

  lemma StartsInside(s: seq<real>, max: nat, window: real, t: real)
    requires Sorted(s) && Spaced(s, max, window) && s != [] && t - window < s[0] <= t && window > 0.0
    ensures InWindow(s, t - window, t) <= max
  {
    hide InWindow;
    if |s| <= max {
      InWindowBounds(s, t - window, t);
    } else {
      assert s[max - max] <= s[max] - window;
      InWindowSplit(s, max, t - window, t);
      InWindowBounds(s[..max], t - window, t);
      InWindowBounds(s[max..], t - window, t);
    }
  }

  lemma SpacedTail(s: seq<real>, max: nat, window: real)
    requires s != [] && Sorted(s) && Spaced(s, max, window)
    ensures Sorted(s[1..]) && Spaced(s[1..], max, window)
  {
    forall i | max <= i < |s[1..]| ensures s[1..][i - max] <= s[1..][i] - window {
      assert s[(i + 1) - max] <= s[i + 1] - window;
    }
  }

  lemma {:induction false} InWindowSplit(s: seq<real>, k: nat, from: real, to: real)
    requires k <= |s|
    ensures InWindow(s, from, to) == InWindow(s[..k], from, to) + InWindow(s[k..], from, to)
  {
    if k == 0 {
      assert s[0..] == s;
    } else {
      assert s[..k][1..] == s[1..][..k - 1] && s[1..][k - 1..] == s[k..];
      InWindowSplit(s[1..], k - 1, from, to);
    }
  }

  /** Fewer than `max` recent entries means the next one may be added without crowding. */
  lemma RoomForOne(s: seq<real>, max: nat, window: real, checked: real, now: real)
    requires Sorted(s) && Spaced(s, max, window) && checked <= now
    requires |s| > 0 ==> s[|s| - 1] <= now
    requires |Recent(s, checked - window)| < max
    ensures Sorted(s + [now]) && Spaced(s + [now], max, window)
  {
    hide Recent;
    var k := RecentIsSuffix(s, checked - window);
    forall i | max <= i < |s| + 1 ensures (s + [now])[i - max] <= (s + [now])[i] - window {
      if i == |s| {
        assert i - max < k;
      } else {
        assert s[i - max] <= s[i] - window;
      }
    }
  }

  // ---- The limiter ----

  /** The bucket key of a request. */
  function Key(ip: Option<string>, deviceId: string): string {
    (if ip.Some? then ip.value else "unknown") + ":" + deviceId
  }

  /** A client without an address still has a bucket per device. */
  lemma UnknownClient(deviceId: string)
    ensures Key(None, deviceId) == "unknown:" + deviceId
  {
    assert "unknown" + ":" == "unknown:";
  }

  predicate NoColon(s: string) {
    forall i :: 0 <= i < |s| ==> s[i] != ':'
  }

  /** Two requests share a bucket only if address and device agree, for addresses without ':'. */
  lemma KeySeparates(a: string, d: string, b: string, e: string)
    requires NoColon(a) && NoColon(b)
    ensures Key(Some(a), d) == Key(Some(b), e) <==> a == b && d == e
  {
    var k, l := Key(Some(a), d), Key(Some(b), e);
    SpanIs(k, c => c != ':', |a|);
    SpanIs(l, c => c != ':', |b|);
    assert k[..|a|] == a && k[|a| + 1..] == d;
    assert l[..|b|] == b && l[|b| + 1..] == e;
  }

  /** `b` is the address `a` and more after a colon, and that more is missing from `e`. */
  predicate Shifted(a: string, d: string, b: string, e: string) {
    |a| < |b| && b[..|a|] == a && b[|a|] == ':' && d == b[|a| + 1..] + ":" + e
  }

  /**
   * Requests from any addresses share a bucket exactly when they agree, or when part of the
   * longer address stands at the start of the other device id.
   */
  lemma KeyCollision(a: string, d: string, b: string, e: string)
    requires |a| <= |b|
    ensures Key(Some(a), d) == Key(Some(b), e) <==> (a == b && d == e) || Shifted(a, d, b, e)
  {
    var k, l := Key(Some(a), d), Key(Some(b), e);
    assert k[..|a|] == a && k[|a|] == ':' && k[|a| + 1..] == d;
    assert l[..|a|] == b[..|a|] && (|a| == |b| ==> l[|a| + 1..] == e);
    if |a| < |b| {
      assert l[|a|] == b[|a|] && l[|a| + 1..] == b[|a| + 1..] + ":" + e;
      assert l == l[..|a|] + [l[|a|]] + l[|a| + 1..] && k == k[..|a|] + [k[|a|]] + k[|a| + 1..];
    }
  }

  /** IPv6 addresses have colons, so different requests can share a bucket. */
  lemma KeyCollides()
    ensures Key(Some("::1"), "x:y") == Key(Some("::1:x"), "y")
  {
    KeyCollision("::1", "x:y", "::1:x", "y");
  }

  /** A bucket agrees with its history on every window that ends at `clock` or later. */
  predicate Agree(bucket: seq<real>, history: seq<real>, cutoff: real, clock: real, window: real) {
    && Sorted(history)
    && (history != [] ==> history[|history| - 1] <= clock)
    && cutoff <= clock - window && bucket == Recent(history, cutoff)
  }

  function At(m: map<string, seq<real>>, key: string): seq<real> {
    if key in m then m[key] else []
  }

  /** The buckets, none of them empty, agree with the histories key by key. */
  ghost predicate AllAgree(buckets: map<string, seq<real>>, admitted: map<string, seq<real>>,
                           cutoffs: map<string, real>, clock: real, window: real) {
    && (forall key :: key in buckets ==> buckets[key] != [])
    && (forall key :: key !in cutoffs ==> At(admitted, key) == [])
    && (forall key :: Agree(At(buckets, key), At(admitted, key),
                            if key in cutoffs then cutoffs[key] else clock - window, clock, window))
  }

  class SlidingWindowRateLimiter {
    const maxRequests: nat
    const windowSeconds: real
    var buckets: map<string, seq<real>>
    ghost var admitted: map<string, seq<real>>
    ghost var cutoffs: map<string, real>
    ghost var clock: real

    constructor (maxRequests: nat, windowSeconds: real)
      requires windowSeconds > 0.0
      ensures this.maxRequests == maxRequests && this.windowSeconds == windowSeconds
      ensures Valid() && Bounded() && admitted == map[]
    {
      this.maxRequests, this.windowSeconds := maxRequests, windowSeconds;
      buckets, admitted, cutoffs, clock := map[], map[], map[], 0.0;
    }

    function Bucket(key: string): seq<real>
      reads this
    {
      At(buckets, key)
    }

    ghost function History(key: string): seq<real>
      reads this
    {
      At(admitted, key)
    }

    /** How many admissions of the untrimmed history are newer than `cutoff`. */
    ghost function CountSince(key: string, cutoff: real): nat
      reads this
    {
      |Recent(History(key), cutoff)|
    }

    ghost predicate Valid()
      reads this
    {
      windowSeconds > 0.0 && AllAgree(buckets, admitted, cutoffs, clock, windowSeconds)
    }

    /** No window of any history holds more than `maxRequests` admissions. */
    ghost predicate Bounded()
      reads this
    {
      forall key :: Spaced(History(key), maxRequests, windowSeconds)
    }

    /** `_trim`: an emptied bucket is deleted, what stays is all a window ending now or later needs. */
    method Trim(key: string, now: real)
      requires Valid() && now >= clock
      modifies `buckets, `cutoffs, `clock
      ensures Valid() && clock == now
      ensures Bucket(key) == Recent(History(key), now - windowSeconds)
      ensures key in buckets <==> Recent(History(key), now - windowSeconds) != []
      ensures forall k :: k != key ==> Bucket(k) == old(Bucket(k)) && (k in buckets <==> k in old(buckets))
    {
      hide AllAgree, Recent;
      TrimKeeps(buckets, admitted, cutoffs, clock, windowSeconds, key, now);
      var cutoff := now - windowSeconds;
      buckets := buckets[key := Recent(Bucket(key), cutoff)];
      if buckets[key] == [] {
        buckets := buckets - {key};
      }
      assert buckets == Trimmed(old(buckets), key, cutoff);
      cutoffs := cutoffs[key := now - windowSeconds];
      clock := now;
    }

    /** `check`: admits while the history holds fewer than `maxRequests` recent entries. */
    method Check(key: string, now: real) returns (allowed: bool, remaining: int)
      requires Valid() && now >= clock
      modifies `buckets, `cutoffs, `clock
      ensures Valid() && clock == now
      ensures Bucket(key) == Recent(History(key), now - windowSeconds)
      ensures allowed == (|Recent(History(key), now - windowSeconds)| < maxRequests)
      ensures remaining == maxRequests - |Recent(History(key), now - windowSeconds)|
      ensures forall k :: k != key ==> Bucket(k) == old(Bucket(k))
    {
      hide AllAgree, Recent;
      Trim(key, now);
      var count := |Bucket(key)|;
      allowed := count < maxRequests;
      remaining := maxRequests - count;
    }

    /** `record`, which never refuses. */
    method Record(key: string, now: real)
      requires Valid() && now >= clock
      modifies `buckets, `admitted, `cutoffs, `clock
      ensures Valid() && clock == now
      ensures History(key) == old(History(key)) + [now]
      ensures forall k :: k != key ==> History(k) == old(History(k)) && Bucket(k) == old(Bucket(k))
    {
      hide AllAgree;
      RecordKeeps(buckets, admitted, cutoffs, clock, windowSeconds, key, now);
      cutoffs := cutoffs[key := if key in cutoffs then cutoffs[key] else clock - windowSeconds];
      buckets := buckets[key := Bucket(key) + [now]];
      admitted := admitted[key := History(key) + [now]];
      clock := now;
    }

    /** One limited request: `check`, then `record` if the check admits it. */
    method Admit(key: string, checkedAt: real, recordedAt: real) returns (allowed: bool, remaining: int)
      requires Valid() && Bounded() && clock <= checkedAt <= recordedAt
      modifies this
      ensures Valid() && Bounded() && clock <= recordedAt
      ensures var count := |Recent(old(History(key)), checkedAt - windowSeconds)|;
              && (allowed <==> count < maxRequests) && remaining == maxRequests - count
      ensures History(key) == old(History(key)) + (if allowed then [recordedAt] else [])
      ensures forall k :: k != key ==> History(k) == old(History(k))
    {
      hide AllAgree, Recent, Spaced;
      allowed, remaining := Check(key, checkedAt);
      assert forall k :: History(k) == old(History(k));
      if !allowed {
        forall k ensures Spaced(History(k), maxRequests, windowSeconds) {
          assert old(Spaced(History(k), maxRequests, windowSeconds));
        }
        return;
      }
      assert Spaced(History(key), maxRequests, windowSeconds);
      HistorySorted(buckets, admitted, cutoffs, clock, windowSeconds, key);
      RoomForOne(History(key), maxRequests, windowSeconds, checkedAt, recordedAt);
      Record(key, recordedAt);
      forall k ensures Spaced(History(k), maxRequests, windowSeconds) {
        assert old(Spaced(History(k), maxRequests, windowSeconds));
      }
    }

    /** The bound the limiter is for, at every instant and for every key. */
    lemma BoundHolds(key: string, t: real)
      requires Valid() && Bounded()
      ensures InWindow(History(key), t - windowSeconds, t) <= maxRequests
    {
      assert Spaced(History(key), maxRequests, windowSeconds);
      HistorySorted(buckets, admitted, cutoffs, clock, windowSeconds, key);
      WindowBound(History(key), maxRequests, windowSeconds, t);
    }
  }

  function Trimmed(buckets: map<string, seq<real>>, key: string, cutoff: real): map<string, seq<real>> {
    var kept := Recent(At(buckets, key), cutoff);
    if kept == [] then buckets - {key} else buckets[key := kept]
  }

  lemma HistorySorted(buckets: map<string, seq<real>>, admitted: map<string, seq<real>>,
                      cutoffs: map<string, real>, clock: real, window: real, key: string)
    requires AllAgree(buckets, admitted, cutoffs, clock, window)
    ensures Sorted(At(admitted, key))
    ensures |At(admitted, key)| > 0 ==> At(admitted, key)[|At(admitted, key)| - 1] <= clock
  {
  }

  lemma TrimKeeps(buckets: map<string, seq<real>>, admitted: map<string, seq<real>>,
                  cutoffs: map<string, real>, clock: real, window: real, key: string, now: real)
    requires AllAgree(buckets, admitted, cutoffs, clock, window) && now >= clock
    ensures AllAgree(Trimmed(buckets, key, now - window), admitted, cutoffs[key := now - window], now, window)
    ensures At(Trimmed(buckets, key, now - window), key) == Recent(At(admitted, key), now - window)
  {
    hide Agree, Recent;
    var cutoff := if key in cutoffs then cutoffs[key] else clock - window;
    LaterAgrees(At(buckets, key), At(admitted, key), cutoff, clock, window, now);
    var next, cutoffs' := Trimmed(buckets, key, now - window), cutoffs[key := now - window];
    forall k | k != key
      ensures Agree(At(next, k), At(admitted, k), if k in cutoffs' then cutoffs'[k] else now - window, now, window)
    {
      StillAgrees(At(buckets, k), At(admitted, k), if k in cutoffs then cutoffs[k] else clock - window,
                  if k in cutoffs' then cutoffs'[k] else now - window, clock, now, window);
    }
  }

  lemma RecordKeeps(buckets: map<string, seq<real>>, admitted: map<string, seq<real>>,
                    cutoffs: map<string, real>, clock: real, window: real, key: string, now: real)
    requires AllAgree(buckets, admitted, cutoffs, clock, window) && now >= clock && window > 0.0
    ensures AllAgree(buckets[key := At(buckets, key) + [now]], admitted[key := At(admitted, key) + [now]],
                     cutoffs[key := if key in cutoffs then cutoffs[key] else clock - window], now, window)
  {
    hide Agree;
    var cutoff := if key in cutoffs then cutoffs[key] else clock - window;
    OneMoreAgrees(At(buckets, key), At(admitted, key), cutoff, clock, window, now);
    forall k | k != key
      ensures Agree(At(buckets, k), At(admitted, k), if k in cutoffs then cutoffs[k] else now - window, now, window)
    {
      StillAgrees(At(buckets, k), At(admitted, k), if k in cutoffs then cutoffs[k] else clock - window,
                  if k in cutoffs then cutoffs[k] else now - window, clock, now, window);
    }
  }

  lemma LaterAgrees(bucket: seq<real>, history: seq<real>, cutoff: real, clock: real, window: real, now: real)
    requires Agree(bucket, history, cutoff, clock, window) && now >= clock
    ensures Recent(bucket, now - window) == Recent(history, now - window)
    ensures Agree(Recent(bucket, now - window), history, now - window, now, window)
  {
    RecentTwice(history, cutoff, now - window);
  }

  /** Time may pass over a bucket; one never written stays empty whatever its cutoff. */
  lemma StillAgrees(bucket: seq<real>, history: seq<real>, cutoff: real, cutoff': real,
                    clock: real, clock': real, window: real)
    requires Agree(bucket, history, cutoff, clock, window) && clock <= clock'
    requires cutoff' == cutoff || (history == [] && cutoff' == clock' - window)
    ensures Agree(bucket, history, cutoff', clock', window)
  {
  }

  lemma OneMoreAgrees(bucket: seq<real>, history: seq<real>, cutoff: real, clock: real, window: real, now: real)
    requires Agree(bucket, history, cutoff, clock, window) && now >= clock && window > 0.0
    ensures Agree(bucket + [now], history + [now], cutoff, now, window)
  {
    RecentAppend(history, now, cutoff);
  }

  // ---- The middleware ----

  datatype Tier = Exempt | Health | Auth | Ticket | General

  function TierOf(path: string): Tier {
    if "/api/v1/admin" <= path then Exempt
    else if path == "/health" then Health
    else if "/api/v1/device/register" <= path then Auth
    else if "/api/v1/websocket/ticket" <= path then Ticket
    else General
  }

  /** The four kinds of limited path, and the exempt one. */
  lemma Tiers(path: string)
    ensures TierOf(path) == Exempt <==> "/api/v1/admin" <= path
    ensures TierOf(path) == Health <==> path == "/health"
    ensures TierOf(path) == Auth <==> "/api/v1/device/register" <= path
    ensures TierOf(path) == Ticket <==> "/api/v1/websocket/ticket" <= path
  {
    if "/api/v1/admin" <= path { assert path[8] == 'a'; }
    if "/api/v1/device/register" <= path { assert path[8] == 'd'; }
    if "/api/v1/websocket/ticket" <= path { assert path[8] == 'w'; }
    if path == "/health" { assert path[1] == 'h'; }
    assert "/api/v1/admin" <= path || "/api/v1/device/register" <= path || "/api/v1/websocket/ticket" <= path ==>
             path[1] == 'a';
  }

  /** The limit a tier displays; the general one is shown as 60 however it was configured. */
  function Displayed(tier: Tier): nat {
    match tier
    case Health => 120
    case Auth => 5
    case Ticket => 10
    case _ => 60
  }

  /**
   * A reply: refused by raising the 429 exception, failed because the refusal's log line reads
   * the address of an unknown client, or forwarded, with the two rate-limit headers if limited.
   */
  datatype Reply = Refused | Failed | Forwarded(headers: Option<(nat, int)>)

  class RateLimitMiddleware {
    const health: SlidingWindowRateLimiter
    const auth: SlidingWindowRateLimiter
    const ticket: SlidingWindowRateLimiter
    const general: SlidingWindowRateLimiter

    constructor (maxRequests: nat, windowSeconds: real)
      requires windowSeconds > 0.0
      ensures Valid() && general.maxRequests == maxRequests && general.windowSeconds == windowSeconds
      ensures fresh(Limiters())
    {
      health := new SlidingWindowRateLimiter(120, 60.0);
      auth := new SlidingWindowRateLimiter(5, 60.0);
      ticket := new SlidingWindowRateLimiter(10, 60.0);
      general := new SlidingWindowRateLimiter(maxRequests, windowSeconds);
    }

    ghost function Limiters(): set<SlidingWindowRateLimiter> {
      {health, auth, ticket, general}
    }

    ghost predicate Valid()
      reads Limiters()
    {
      && health != auth && health != ticket && health != general
      && auth != ticket && auth != general && ticket != general
      && health.Valid() && auth.Valid() && ticket.Valid() && general.Valid()
      && health.Bounded() && auth.Bounded() && ticket.Bounded() && general.Bounded()
      && health.maxRequests == 120 && auth.maxRequests == 5 && ticket.maxRequests == 10
      && health.windowSeconds == auth.windowSeconds == ticket.windowSeconds == 60.0
    }

    /** `_select_limiter`, for a path that is not exempt. */
    function Select(path: string): SlidingWindowRateLimiter
      requires TierOf(path) != Exempt
      ensures Select(path) in Limiters()
    {
      match TierOf(path)
      case Health => health
      case Auth => auth
      case Ticket => ticket
      case _ => general
    }

    ghost predicate ClockReached(now: real)
      reads Limiters()
    {
      health.clock <= now && auth.clock <= now && ticket.clock <= now && general.clock <= now
    }

    /** The limit shown is the one in force, unless the general one was configured otherwise. */
    lemma ShownLimit(path: string)
      requires Valid() && TierOf(path) != Exempt
      ensures Displayed(TierOf(path)) == Select(path).maxRequests
         <==> TierOf(path) != General || general.maxRequests == 60
    {
    }

    /** `dispatch`: the check and the record read the clock separately, the second not earlier. */
    method Dispatch(path: string, ip: Option<string>, deviceId: string, checkedAt: real, recordedAt: real)
      returns (reply: Reply)
      requires Valid() && ClockReached(checkedAt) && checkedAt <= recordedAt
      modifies Limiters()
      ensures Valid() && ClockReached(recordedAt)
      ensures "/api/v1/admin" <= path ==> reply == Forwarded(None) && unchanged(health, auth, ticket, general)
      ensures path == "/health" ==>
                && unchanged(auth, ticket, general)
                && (reply.Forwarded? <==> old(health.CountSince(Key(ip, deviceId), checkedAt - 60.0)) < 120)
      ensures "/api/v1/device/register" <= path ==>
                && unchanged(health, ticket, general)
                && (reply.Forwarded? <==> old(auth.CountSince(Key(ip, deviceId), checkedAt - 60.0)) < 5)
      ensures "/api/v1/websocket/ticket" <= path ==>
                && unchanged(health, auth, general)
                && (reply.Forwarded? <==> old(ticket.CountSince(Key(ip, deviceId), checkedAt - 60.0)) < 10)
      ensures !("/api/v1/admin" <= path) && path != "/health" && !("/api/v1/device/register" <= path)
              && !("/api/v1/websocket/ticket" <= path) ==>
                var recent := old(general.CountSince(Key(ip, deviceId), checkedAt - general.windowSeconds));
                unchanged(health, auth, ticket) && (reply.Forwarded? <==> recent < general.maxRequests)
      ensures TierOf(path) != Exempt ==>
                forall l :: l in Limiters() && l != Select(path) ==> unchanged(l)
      ensures TierOf(path) != Exempt ==>
                var l, key := Select(path), Key(ip, deviceId);
                var count := |Recent(old(l.History(key)), checkedAt - l.windowSeconds)|;
                && (reply.Forwarded? <==> count < l.maxRequests)
                && (!reply.Forwarded? ==> reply == if ip == None then Failed else Refused)
                && l.History(key) == old(l.History(key)) + (if reply.Forwarded? then [recordedAt] else [])
                && (forall k :: k != key ==> l.History(k) == old(l.History(k)))
                && (reply.Forwarded? ==> reply == Forwarded(Some((Displayed(TierOf(path)), l.maxRequests - count - 1))))
    {
      hide Recent, Key, At, AllAgree, Spaced, SlidingWindowRateLimiter.Valid, SlidingWindowRateLimiter.Bounded;
      Tiers(path);
      if "/api/v1/admin" <= path { return Forwarded(None); }
      var limiter := Select(path);
      var key := Key(ip, deviceId);
      var allowed, remaining := limiter.Admit(key, checkedAt, recordedAt);
      if !allowed {
        reply := if ip == None then Failed else Refused;
        return;
      }
      reply := Forwarded(Some((Displayed(TierOf(path)), if remaining > 0 then remaining - 1 else 0)));
    }
  }
}
