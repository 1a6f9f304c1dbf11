/**
 The sliding-window rate limiter of one key: the Lua script's pruned sorted set,
 which Redis may also drop as a whole, against the simple rule "fewer than `max`
 of all past admissions lie in (now - window, now]".
 */
module SlidingWindow {
  import opened Options

  /** A request: the caller's clock, which scores it, and Redis' clock, which ages the key. */
  datatype Hit = Hit(app: int, redis: int)

  datatype Config = Config(window: int, max: int)

  /** The sorted set's scores, lowest first, and when the key expires. */
  datatype Bucket = Bucket(scores: seq<int>, deadline: Option<int>)

  /** By how much the key's time to live exceeds the window. */
  const GRACE := 1000

  /** By how much Redis' clock may gain on the callers' before the limit breaks. */
  const DRIFT := 1000

  predicate Valid(c: Config) {
    c.window >= 1 && c.max >= 1
  }

  // ---------------------------------------------------------------- the script

  /** ZREMRANGEBYSCORE key -inf bound: what is left has a score above the bound. */
  function Prune(scores: seq<int>, bound: int): seq<int> {
    if scores == [] then []
    else
      var n := |scores| - 1;
      Prune(scores[..n], bound) + if scores[n] > bound then [scores[n]] else []
  }

  predicate Expired(b: Bucket, redisNow: int) {
    b.deadline.Some? && b.deadline.value <= redisNow
  }

  /** The bucket the script finds: Redis has dropped an expired one. */
  function Found(b: Bucket, redisNow: int): Bucket {
    if Expired(b, redisNow) then Bucket([], None) else b
  }

  /** One run of the script: the new bucket, the count it reports, and whether it admits. */
  function Serve(c: Config, b: Bucket, hit: Hit): (Bucket, nat, bool) {
    var found := Found(b, hit.redis);
    var kept := Prune(found.scores, hit.app - c.window);
    if |kept| >= c.max then (Bucket(kept, found.deadline), |kept|, false)
    else (Bucket(kept + [hit.app], Some(hit.redis + c.window + GRACE)), |kept| + 1, true)
  }

  // ---------------------------------------------------------------- the rule

  /** How many of the times lie in (low, high]. */
  function CountIn(times: seq<int>, low: int, high: int): nat {
    if times == [] then 0
    else
      var n := |times| - 1;
      CountIn(times[..n], low, high) + if low < times[n] <= high then 1 else 0
  }

  /** Fewer than `max` of all admissions so far lie in the window that ends now. */
  predicate Admits(c: Config, admissions: seq<int>, now: int) {
    CountIn(admissions, now - c.window, now) < c.max
  }

  /** A key with what the script has forgotten: every admission it ever made, and the last requests. */
  datatype Key = Key(bucket: Bucket, admissions: seq<int>, lastAdmitted: Option<Hit>, latest: Option<int>)

  const NEW_KEY := Key(Bucket([], None), [], None, None)

  function Request(c: Config, k: Key, hit: Hit): Key {
    var (bucket, _, allowed) := Serve(c, k.bucket, hit);
    if allowed then Key(bucket, k.admissions + [hit.app], Some(hit), Some(hit.app))
    else Key(bucket, k.admissions, k.lastAdmitted, Some(hit.app))
  }

  function Run(c: Config, hits: seq<Hit>): Key {
    if hits == [] then NEW_KEY
    else Request(c, Run(c, hits[..|hits| - 1]), hits[|hits| - 1])
  }

  // ---------------------------------------------------------------- assumptions on the clocks

  /**
   Between the two requests the callers' clocks do not run backward, and Redis' gains at most a
   second on them.
   */
  predicate ClocksAgree(earlier: Hit, later: Hit) {
    && earlier.app <= later.app
    && (later.redis - earlier.redis) - (later.app - earlier.app) <= DRIFT
  }

  predicate Follows(hits: seq<Hit>, hit: Hit) {
    forall i :: 0 <= i < |hits| ==> ClocksAgree(hits[i], hit)
  }

  /** Any two requests of the run have agreeing clocks. */
  predicate Steady(hits: seq<Hit>) {
    hits == [] || (Steady(hits[..|hits| - 1]) && Follows(hits[..|hits| - 1], hits[|hits| - 1]))
  }

  /** What that means for one more request on a key. */
  predicate Timely(k: Key, hit: Hit) {
    && (k.latest.Some? ==> k.latest.value <= hit.app)
    && (k.lastAdmitted.Some? ==> ClocksAgree(k.lastAdmitted.value, hit))
  }

  // ---------------------------------------------------------------- pruning

  predicate Sorted(times: seq<int>) {
    forall i, j :: 0 <= i < j < |times| ==> times[i] <= times[j]
  }

  predicate AllAtMost(times: seq<int>, high: int) {
    forall i :: 0 <= i < |times| ==> times[i] <= high
  }

  predicate AllWithin(times: seq<int>, low: int, high: int) {
    forall i :: 0 <= i < |times| ==> low < times[i] <= high
  }

  lemma {:induction false} PruneTwice(scores: seq<int>, low: int, high: int)
    requires low <= high
    ensures Prune(Prune(scores, low), high) == Prune(scores, high)
  {
    if scores != [] {
      var n := |scores| - 1;
      PruneTwice(scores[..n], low, high);
      var kept := Prune(scores[..n], low);
      if scores[n] > low {
        assert (kept + [scores[n]])[..|kept|] == kept;
      } else {
        assert kept + [] == kept;
      }
    }
  }

  lemma {:induction false} PruneAll(scores: seq<int>, bound: int)
    requires AllAtMost(scores, bound)
    ensures Prune(scores, bound) == []
  {
    if scores != [] {
      PruneAll(scores[..|scores| - 1], bound);
    }
  }

  lemma PruneAppend(scores: seq<int>, t: int, bound: int)
    ensures Prune(scores + [t], bound) == Prune(scores, bound) + if t > bound then [t] else []
  {
    assert (scores + [t])[..|scores|] == scores;
  }

  lemma {:induction false} PruneCounts(times: seq<int>, low: int, high: int)
    requires AllAtMost(times, high)
    ensures |Prune(times, low)| == CountIn(times, low, high)
  {
    if times != [] {
      PruneCounts(times[..|times| - 1], low, high);
    }
  }

  lemma {:induction false} PruneKeepsOrder(times: seq<int>, bound: int, high: int)
    requires Sorted(times) && AllAtMost(times, high)
    ensures Sorted(Prune(times, bound)) && AllWithin(Prune(times, bound), bound, high)
    ensures times != [] ==> AllAtMost(Prune(times, bound), times[|times| - 1])
  {
    if times != [] {
      var n := |times| - 1;
      PruneKeepsOrder(times[..n], bound, high);
    }
  }

  // ---------------------------------------------------------------- what a key keeps

  /** The deadline the last admission set. */
  function Deadline(c: Config, lastAdmitted: Option<Hit>): Option<int> {
    if lastAdmitted.None? then None else Some(lastAdmitted.value.redis + c.window + GRACE)
  }

  /** The half-open interval (low, low + window] holds at most `max` of the times. */
  predicate WithinMax(c: Config, times: seq<int>, low: int) {
    CountIn(times, low, low + c.window) <= c.max
  }

  /** So does every half-open interval as long as the window. */
  ghost predicate Limited(c: Config, times: seq<int>) {
    forall low :: WithinMax(c, times, low)
  }

  /**
   The bucket is the admissions pruned to the window of the latest request, and
   the key expires a grace period after the last admission has left the window.
   */
  ghost predicate KeyInv(c: Config, k: Key) {
    && Sorted(k.admissions)
    && (k.admissions == [] <==> k.lastAdmitted.None?)
    && (k.admissions != [] ==> k.lastAdmitted.value.app == k.admissions[|k.admissions| - 1])
    && (k.latest.None? ==> k.admissions == [] && k.bucket.scores == [])
    && (k.latest.Some? ==>
          && AllAtMost(k.admissions, k.latest.value)
          && k.bucket.scores == Prune(k.admissions, k.latest.value - c.window))
    && k.bucket.deadline == Deadline(c, k.lastAdmitted)
    && Limited(c, k.admissions)
  }

  /** The key outlives every admission that can still count. */
  lemma ExpiryLosesNothing(c: Config, k: Key, hit: Hit)
    requires KeyInv(c, k) && Timely(k, hit) && Expired(k.bucket, hit.redis)
    ensures Prune(k.admissions, hit.app - c.window) == []
  {
    var last := |k.admissions| - 1;
    forall i | 0 <= i <= last
      ensures k.admissions[i] <= hit.app - c.window
    {
      assert i < last ==> k.admissions[i] <= k.admissions[last];
    }
    PruneAll(k.admissions, hit.app - c.window);
  }

  /** What the script looks at is what the rule counts, expired key or not. */
  lemma ScriptSeesWindow(c: Config, k: Key, hit: Hit)
    requires KeyInv(c, k) && Timely(k, hit)
    ensures Prune(Found(k.bucket, hit.redis).scores, hit.app - c.window) == Prune(k.admissions, hit.app - c.window)
  {
    hide Sorted, AllAtMost, Limited, CountIn;
    assert Prune([], hit.app - c.window) == [];
    hide Prune;
    if Expired(k.bucket, hit.redis) {
      ExpiryLosesNothing(c, k, hit);
    } else if k.latest.Some? {
      PruneTwice(k.admissions, k.latest.value - c.window, hit.app - c.window);
    }
  }

  lemma AdmissionsAreNotLater(c: Config, k: Key, hit: Hit)
    requires KeyInv(c, k) && Timely(k, hit)
    ensures AllAtMost(k.admissions, hit.app)
  {
  }

  /**
   Main result: with its pruning, and with Redis dropping the key, the script admits a
   request exactly when fewer than `max` of all past admissions lie in the window, and
   reports how many do.
   */
  lemma ScriptIsRule(c: Config, k: Key, hit: Hit)
    requires KeyInv(c, k) && Timely(k, hit)
    ensures var (_, count, allowed) := Serve(c, k.bucket, hit);
            var used := CountIn(k.admissions, hit.app - c.window, hit.app);
            && (allowed <==> Admits(c, k.admissions, hit.app))
            && count == (if allowed then used + 1 else used)
  {
    AdmissionsAreNotLater(c, k, hit);
    hide Sorted, AllAtMost, Limited, CountIn, Prune, Timely;
    ScriptSeesWindow(c, k, hit);
    PruneCounts(k.admissions, hit.app - c.window, hit.app);
  }

  // ---------------------------------------------------------------- the limit

  lemma {:induction false} CountMonotone(times: seq<int>, low: int, high: int, low': int, high': int)
    requires low' <= low && high <= high'
    ensures CountIn(times, low, high) <= CountIn(times, low', high')
  {
    if times != [] {
      CountMonotone(times[..|times| - 1], low, high, low', high');
    }
  }

  lemma {:induction false} CountUpTo(times: seq<int>, low: int, high: int, now: int)
    requires AllAtMost(times, now)
    ensures CountIn(times, low, high) <= CountIn(times, low, now)
  {
    if times != [] {
      CountUpTo(times[..|times| - 1], low, high, now);
    }
  }

  lemma CountAppend(times: seq<int>, t: int, low: int, high: int)
    ensures CountIn(times + [t], low, high) == CountIn(times, low, high) + if low < t <= high then 1 else 0
  {
    assert (times + [t])[..|times|] == times;
  }

  lemma OneMoreStaysWithinMax(c: Config, times: seq<int>, now: int, low: int)
    requires Valid(c) && AllAtMost(times, now) && Admits(c, times, now)
    requires WithinMax(c, times, low)
    ensures WithinMax(c, times + [now], low)
  {
    CountAppend(times, now, low, low + c.window);
    if low < now <= low + c.window {
      CountUpTo(times, low, low + c.window, now);
      CountMonotone(times, low, now, now - c.window, now);
    }
  }

  lemma OneMoreStaysLimited(c: Config, times: seq<int>, now: int)
    requires Valid(c) && AllAtMost(times, now) && Admits(c, times, now) && Limited(c, times)
    ensures Limited(c, times + [now])
  {
    forall low
      ensures WithinMax(c, times + [now], low)
    {
      OneMoreStaysWithinMax(c, times, now, low);
    }
  }

  /** A rejected request finds the key there: an expired one would have admitted it. */
  lemma RejectionKeepsKey(c: Config, k: Key, hit: Hit)
    requires Valid(c) && !Serve(c, k.bucket, hit).2
    ensures !Expired(k.bucket, hit.redis) && Serve(c, k.bucket, hit).0.deadline == k.bucket.deadline
    ensures Serve(c, k.bucket, hit).0.scores == Prune(k.bucket.scores, hit.app - c.window)
  {
    assert Prune([], hit.app - c.window) == [];
  }

  lemma SortedMore(times: seq<int>, t: int)
    requires Sorted(times) && AllAtMost(times, t)
    ensures Sorted(times + [t]) && AllAtMost(times + [t], t)
  {
  }

  lemma AdmittedRequest(c: Config, k: Key, hit: Hit, kept: seq<int>)
    requires kept == Prune(Found(k.bucket, hit.redis).scores, hit.app - c.window) && |kept| < c.max
    ensures Request(c, k, hit) ==
            Key(Bucket(kept + [hit.app], Some(hit.redis + c.window + GRACE)), k.admissions + [hit.app],
                Some(hit), Some(hit.app))
  {
    hide Prune, Found;
  }

  lemma AdmissionKeepsInv(c: Config, k: Key, hit: Hit)
    requires Valid(c) && KeyInv(c, k) && Timely(k, hit) && Admits(c, k.admissions, hit.app)
    ensures KeyInv(c, Request(c, k, hit))
  {
    hide AllAtMost, Limited, CountIn, Prune, Timely, Sorted, Request, Found;
    AdmissionsAreNotLater(c, k, hit);
    ScriptSeesWindow(c, k, hit);
    PruneCounts(k.admissions, hit.app - c.window, hit.app);
    AdmittedRequest(c, k, hit, Prune(k.admissions, hit.app - c.window));
    PruneAppend(k.admissions, hit.app, hit.app - c.window);
    OneMoreStaysLimited(c, k.admissions, hit.app);
    SortedMore(k.admissions, hit.app);
  }

  lemma RejectionKeepsInv(c: Config, k: Key, hit: Hit)
    requires Valid(c) && KeyInv(c, k) && Timely(k, hit) && !Admits(c, k.admissions, hit.app)
    ensures KeyInv(c, Request(c, k, hit))
    ensures Request(c, k, hit).admissions == k.admissions
  {
    AdmissionsAreNotLater(c, k, hit);
    hide Sorted, AllAtMost, Limited, CountIn, Prune, Admits, Timely;
    ScriptIsRule(c, k, hit);
    ScriptSeesWindow(c, k, hit);
    RejectionKeepsKey(c, k, hit);
  }

  lemma RequestKeepsInv(c: Config, k: Key, hit: Hit)
    requires Valid(c) && KeyInv(c, k) && Timely(k, hit)
    ensures KeyInv(c, Request(c, k, hit))
  {
    if Admits(c, k.admissions, hit.app) {
      AdmissionKeepsInv(c, k, hit);
    } else {
      RejectionKeepsInv(c, k, hit);
    }
  }

  /** The last admission and the latest request of a run are requests of the run. */
  lemma {:induction false} RunRemembersHits(c: Config, hits: seq<Hit>)
    ensures Run(c, hits).lastAdmitted.Some? ==>
              exists i :: 0 <= i < |hits| && hits[i] == Run(c, hits).lastAdmitted.value
    ensures Run(c, hits).latest == if hits == [] then None else Some(hits[|hits| - 1].app)
  {
    if hits != [] {
      var past := hits[..|hits| - 1];
      RunRemembersHits(c, past);
      if Run(c, hits).lastAdmitted.Some? && Run(c, hits).lastAdmitted == Run(c, past).lastAdmitted {
        var i :| 0 <= i < |past| && past[i] == Run(c, past).lastAdmitted.value;
        assert hits[i] == past[i];
      }
    }
  }

  lemma FollowingIsTimely(c: Config, hits: seq<Hit>, hit: Hit)
    requires Follows(hits, hit)
    ensures Timely(Run(c, hits), hit)
  {
    RunRemembersHits(c, hits);
    if hits != [] {
      assert ClocksAgree(hits[|hits| - 1], hit);
    }
    if Run(c, hits).lastAdmitted.Some? {
      var i :| 0 <= i < |hits| && hits[i] == Run(c, hits).lastAdmitted.value;
      assert ClocksAgree(hits[i], hit);
    }
  }

  /**
   Over every run the invariant holds; in particular every half-open interval as long
   as the window holds at most `max` admissions.
   */
  lemma {:induction false} RunKeepsLimit(c: Config, hits: seq<Hit>)
    requires Valid(c) && Steady(hits)
    ensures KeyInv(c, Run(c, hits))
    ensures Limited(c, Run(c, hits).admissions)
  {
    if hits == [] {
      assert Limited(c, []);
    } else {
      var (past, hit) := (hits[..|hits| - 1], hits[|hits| - 1]);
      RunKeepsLimit(c, past);
      FollowingIsTimely(c, past, hit);
      RequestKeepsInv(c, Run(c, past), hit);
    }
  }

  // ---------------------------------------------------------------- a clock that runs backward

  function Zeros(n: nat): seq<int> {
    if n == 0 then [] else Zeros(n - 1) + [0]
  }

  /** n requests at one moment. */
  function Burst(n: nat): seq<Hit> {
    if n == 0 then [] else Burst(n - 1) + [Hit(0, 0)]
  }

  lemma RunMore(c: Config, hits: seq<Hit>, hit: Hit)
    ensures Run(c, hits + [hit]) == Request(c, Run(c, hits), hit)
  {
    assert (hits + [hit])[..|hits|] == hits;
  }

  lemma ZerosMore(n: nat)
    requires n > 0
    ensures Zeros(n) == Zeros(n - 1) + [0] && Burst(n) == Burst(n - 1) + [Hit(0, 0)]
  {
  }

  lemma {:induction false} ManyZeros(n: nat)
    ensures |Zeros(n)| == n
  {
    if n > 0 {
      ManyZeros(n - 1);
    }
  }

  lemma {:induction false} PruneZeros(n: nat, bound: int)
    ensures Prune(Zeros(n), bound) == if bound < 0 then Zeros(n) else []
  {
    if n > 0 {
      hide Prune, Zeros;
      ZerosMore(n);
      PruneZeros(n - 1, bound);
      PruneAppend(Zeros(n - 1), 0, bound);
    }
  }

  lemma {:induction false} CountZeros(n: nat, low: int, high: int)
    requires low < 0 <= high
    ensures CountIn(Zeros(n), low, high) == n
  {
    if n > 0 {
      CountZeros(n - 1, low, high);
      CountAppend(Zeros(n - 1), 0, low, high);
    }
  }

  function AfterBurst(c: Config, n: nat): Key {
    Key(Bucket(Zeros(n), Some(c.window + GRACE)), Zeros(n), Some(Hit(0, 0)), Some(0))
  }

  lemma FirstOfBurst(c: Config)
    requires Valid(c)
    ensures Run(c, Burst(1)) == AfterBurst(c, 1)
  {
    assert Burst(1) == [] + [Hit(0, 0)] && Zeros(1) == [] + [0];
    RunMore(c, [], Hit(0, 0));
    assert Run(c, []) == NEW_KEY;
    hide Run, Burst, Zeros;
    AdmittedRequest(c, NEW_KEY, Hit(0, 0), []);
  }

  lemma NextOfBurst(c: Config, n: nat)
    requires Valid(c) && n < c.max
    ensures Request(c, AfterBurst(c, n), Hit(0, 0)) == AfterBurst(c, n + 1)
  {
    hide Zeros, Prune, Request;
    ManyZeros(n);
    PruneZeros(n, -c.window);
    ZerosMore(n + 1);
    AdmittedRequest(c, AfterBurst(c, n), Hit(0, 0), Zeros(n));
  }

  lemma {:induction false} BurstRuns(c: Config, n: nat)
    requires Valid(c) && 1 <= n <= c.max
    ensures Run(c, Burst(n)) == AfterBurst(c, n)
  {
    hide Run, Burst, AfterBurst, Request;
    if n == 1 {
      FirstOfBurst(c);
    } else {
      BurstRuns(c, n - 1);
      NextOfBurst(c, n - 1);
      ZerosMore(n);
      RunMore(c, Burst(n - 1), Hit(0, 0));
    }
  }

  /** The key a full burst and one request a window later leave. */
  lemma ThenAWindowLater(c: Config)
    requires Valid(c)
    ensures Run(c, Burst(c.max) + [Hit(c.window, c.window)]) ==
            Key(Bucket([c.window], Some(2 * c.window + GRACE)), Zeros(c.max) + [c.window],
                Some(Hit(c.window, c.window)), Some(c.window))
  {
    hide Run, Burst, Zeros, Prune, Request;
    RunMore(c, Burst(c.max), Hit(c.window, c.window));
    BurstRuns(c, c.max);
    PruneZeros(c.max, 0);
    AdmittedRequest(c, AfterBurst(c, c.max), Hit(c.window, c.window), []);
    assert [] + [c.window] == [c.window];
  }

  /** A request whose clock is behind is judged by what the later one's pruning has left. */
  lemma ThenBehind(c: Config)
    requires Valid(c) && c.window >= 2 && c.max >= 2
    ensures Run(c, Burst(c.max) + [Hit(c.window, c.window)] + [Hit(1, c.window)]).admissions ==
            Zeros(c.max) + [c.window] + [1]
  {
    RunMore(c, Burst(c.max) + [Hit(c.window, c.window)], Hit(1, c.window));
    OneIsKept(c);
    hide Run, Burst, Zeros, Prune, Request;
    ThenAWindowLater(c);
    AdmittedRequest(c, Run(c, Burst(c.max) + [Hit(c.window, c.window)]), Hit(1, c.window), [c.window]);
  }

  lemma OneIsKept(c: Config)
    requires Valid(c)
    ensures Prune([c.window], 1 - c.window) == [c.window]
  {
    assert Prune([], 1 - c.window) == [] && [c.window][..0] == [];
  }

  /**
   With a clock that runs backward the script forgets too early, whatever the limit above 1:
   after a full burst and one request a window later, a request from just after the burst is
   admitted, and the window that ends with it holds max + 1 admissions.
   */
  lemma BackwardClockBreaksLimit(c: Config)
    requires Valid(c) && c.window >= 2 && c.max >= 2
    ensures !Limited(c, Run(c, Burst(c.max) + [Hit(c.window, c.window), Hit(1, c.window)]).admissions)
  {
    var times := Zeros(c.max);
    assert Burst(c.max) + [Hit(c.window, c.window), Hit(1, c.window)] ==
           Burst(c.max) + [Hit(c.window, c.window)] + [Hit(1, c.window)];
    ThenBehind(c);
    hide Run, Burst, Zeros;
    CountZeros(c.max, 1 - c.window, 1);
    CountAppend(times, c.window, 1 - c.window, 1);
    CountAppend(times + [c.window], 1, 1 - c.window, 1);
    assert !WithinMax(c, times + [c.window] + [1], 1 - c.window);
  }

  // ---------------------------------------------------------------- a clock that runs ahead

  lemma ExpiredAdmits(c: Config, k: Key, hit: Hit)
    requires Valid(c) && Expired(k.bucket, hit.redis)
    ensures Request(c, k, hit).admissions == k.admissions + [hit.app]
  {
    hide Request;
    assert Prune([], hit.app - c.window) == [];
    AdmittedRequest(c, k, hit, []);
  }

  lemma OneTooMany(c: Config)
    requires Valid(c)
    ensures !Limited(c, Zeros(c.max) + [c.window - 1])
  {
    hide Zeros;
    CountZeros(c.max, -1, c.window - 1);
    CountAppend(Zeros(c.max), c.window - 1, -1, c.window - 1);
    assert !WithinMax(c, Zeros(c.max) + [c.window - 1], -1);
  }

  /**
   With Redis' clock gaining any more than the drift allowed for, the key expires while its admissions
   still count: after a full burst, a request at the window's end is admitted as the (max + 1)-th.
   */
  lemma MoreDriftBreaksLimit(c: Config, drift: int)
    requires Valid(c) && drift > DRIFT
    ensures !Limited(c, Run(c, Burst(c.max) + [Hit(c.window - 1, c.window - 1 + drift)]).admissions)
  {
    hide Run, Burst, Zeros, Request, Limited, CountIn, Prune;
    var last := Hit(c.window - 1, c.window - 1 + drift);
    RunMore(c, Burst(c.max), last);
    BurstRuns(c, c.max);
    ExpiredAdmits(c, AfterBurst(c, c.max), last);
    OneTooMany(c);
  }

  // ---------------------------------------------------------------- Retry-After

  /** Math.ceil of a quotient by 1000. */
  function CeilSeconds(ms: int): int {
    (ms + 999) / 1000
  }

  function Clamp(fallback: int, seconds: int): int {
    var atLeastOne := if seconds > 1 then seconds else 1;
    if atLeastOne < fallback then atLeastOne else fallback
  }

  /** Seconds reported on a rejection; the lowest score is read after the script has run. */
  function RetryAfter(c: Config, b: Bucket, now: int): int {
    var fallback := CeilSeconds(c.window);
    if b.scores == [] then fallback
    else Clamp(fallback, CeilSeconds(b.scores[0] + c.window - now))
  }

  /** Whatever the bucket and the clock: at least a second, and never more than the window. */
  lemma RetryAfterIsClamped(c: Config, b: Bucket, now: int)
    requires Valid(c)
    ensures 1 <= RetryAfter(c, b, now) <= CeilSeconds(c.window)
    ensures c.window <= 1000 * CeilSeconds(c.window) < c.window + 1000
    ensures b.scores != [] && now <= b.scores[0] + c.window - 1 && b.scores[0] <= now ==>
              var wait := b.scores[0] + c.window - now;
              wait <= 1000 * RetryAfter(c, b, now) < wait + 1000
  {
  }

  lemma {:induction false} CountMissesFirst(times: seq<int>, low: int, high: int)
    requires times != []
    ensures CountIn(times, low, high) <= |times|
    ensures times[0] <= low ==> CountIn(times, low, high) < |times|
  {
    if |times| > 1 {
      CountMissesFirst(times[..|times| - 1], low, high);
    } else {
      assert times[..0] == [];
    }
  }

  lemma {:induction false} CountWholeWindow(times: seq<int>, low: int, high: int)
    requires AllWithin(times, low, high)
    ensures CountIn(times, low, high) == |times|
  {
    if times != [] {
      CountWholeWindow(times[..|times| - 1], low, high);
    }
  }

  lemma FullWindow(c: Config, times: seq<int>, now: int, kept: seq<int>)
    requires Sorted(times) && AllAtMost(times, now) && CountIn(times, now - c.window, now) == c.max
    requires kept == Prune(times, now - c.window)
    ensures |kept| == c.max && Sorted(kept) && AllWithin(kept, now - c.window, now)
  {
    PruneKeepsOrder(times, now - c.window, now);
    PruneCounts(times, now - c.window, now);
  }

  /** A full window counted from a later moment is full exactly until its first score has aged out. */
  lemma FullUntilFirstGone(c: Config, scores: seq<int>, now: int, later: int)
    requires Valid(c) && |scores| == c.max && Sorted(scores) && AllWithin(scores, now - c.window, now) && now <= later
    ensures CountIn(scores, later - c.window, later) < c.max <==> later >= scores[0] + c.window
  {
    if later >= scores[0] + c.window {
      CountMissesFirst(scores, later - c.window, later);
    } else {
      forall i | 0 <= i < |scores|
        ensures later - c.window < scores[i] <= later
      {
        assert i > 0 ==> scores[0] <= scores[i];
      }
      CountWholeWindow(scores, later - c.window, later);
    }
  }

  /** What a later moment counts in all admissions it also counts in the pruned ones. */
  lemma LaterCountSurvivesPruning(times: seq<int>, bound: int, bound': int, later: int, kept: seq<int>)
    requires bound <= bound' && AllAtMost(times, later) && kept == Prune(times, bound) && AllAtMost(kept, later)
    ensures CountIn(times, bound', later) == CountIn(kept, bound', later)
  {
    PruneTwice(times, bound, bound');
    PruneCounts(times, bound', later);
    PruneCounts(kept, bound', later);
  }

  /** The scores a rejection leaves: exactly `max`, all in the window, lowest first. */
  lemma RejectionLeavesFullWindow(c: Config, k: Key, hit: Hit)
    requires Valid(c) && KeyInv(c, k) && Timely(k, hit) && !Serve(c, k.bucket, hit).2
    ensures var scores := Request(c, k, hit).bucket.scores;
            && |scores| == c.max && Sorted(scores) && AllWithin(scores, hit.app - c.window, hit.app)
            && scores == Prune(k.admissions, hit.app - c.window)
  {
    ScriptIsRule(c, k, hit);
    ScriptSeesWindow(c, k, hit);
    RejectionKeepsKey(c, k, hit);
    assert WithinMax(c, k.admissions, hit.app - c.window);
    FullWindow(c, k.admissions, hit.app, Prune(k.admissions, hit.app - c.window));
    hide CountIn, Prune, Sorted, AllWithin, Limited;
  }

  /** A full window left by a rejection, as the rule sees it later. */
  lemma FullWindowThenLater(c: Config, admissions: seq<int>, scores: seq<int>, now: int, later: int)
    requires Valid(c) && AllAtMost(admissions, later) && now <= later
    requires scores == Prune(admissions, now - c.window)
    requires |scores| == c.max && Sorted(scores) && AllWithin(scores, now - c.window, now)
    ensures Admits(c, admissions, later) <==> later >= scores[0] + c.window
  {
    LaterCountSurvivesPruning(admissions, now - c.window, later - c.window, later, scores);
    FullUntilFirstGone(c, scores, now, later);
  }

  /** Quiet time after a rejection: the next request is admitted exactly once the oldest score has aged out. */
  lemma NextAdmittedIffOldestGone(c: Config, k: Key, hit: Hit, later: Hit)
    requires Valid(c) && KeyInv(c, k) && Timely(k, hit) && !Serve(c, k.bucket, hit).2
    requires Timely(Request(c, k, hit), later)
    ensures var k' := Request(c, k, hit);
            && k'.bucket.scores != []
            && (Serve(c, k'.bucket, later).2 <==> later.app >= k'.bucket.scores[0] + c.window)
  {
    var k' := Request(c, k, hit);
    RequestKeepsInv(c, k, hit);
    RejectionLeavesFullWindow(c, k, hit);
    AdmissionsAreNotLater(c, k', later);
    FullWindowThenLater(c, k'.admissions, k'.bucket.scores, hit.app, later.app);
    ScriptIsRule(c, k', later);
  }

  lemma CeilSecondsBounds(ms: int)
    ensures 1000 * (CeilSeconds(ms) - 1) < ms <= 1000 * CeilSeconds(ms)
  {
  }

  /** With its score in the window, the formula's clamps do nothing. */
  lemma ClampsAreIdle(c: Config, b: Bucket, now: int)
    requires Valid(c) && b.scores != [] && now - c.window < b.scores[0] <= now
    ensures RetryAfter(c, b, now) == CeilSeconds(b.scores[0] + c.window - now)
    ensures 1 <= RetryAfter(c, b, now) <= CeilSeconds(c.window)
  {
    CeilSecondsBounds(b.scores[0] + c.window - now);
    CeilSecondsBounds(c.window);
  }

  /**
   Retry-After is exact: with no other traffic, waiting that many seconds is enough,
   waiting a second less is not, and neither clamp in the formula changes its value.
   */
  lemma RetryAfterIsTight(c: Config, k: Key, hit: Hit, later: Hit)
    requires Valid(c) && KeyInv(c, k) && Timely(k, hit) && !Serve(c, k.bucket, hit).2
    requires Timely(Request(c, k, hit), later)
    ensures var b := Request(c, k, hit).bucket;
            var seconds := RetryAfter(c, b, hit.app);
            && b.scores != []
            && seconds == CeilSeconds(b.scores[0] + c.window - hit.app)
            && 1 <= seconds <= CeilSeconds(c.window)
            && (later.app >= hit.app + 1000 * seconds ==> Serve(c, b, later).2)
            && (later.app <= hit.app + 1000 * (seconds - 1) ==> !Serve(c, b, later).2)
  {
    var b := Request(c, k, hit).bucket;
    NextAdmittedIffOldestGone(c, k, hit, later);
    RejectionLeavesFullWindow(c, k, hit);
    ClampsAreIdle(c, b, hit.app);
    CeilSecondsBounds(b.scores[0] + c.window - hit.app);
  }
}
