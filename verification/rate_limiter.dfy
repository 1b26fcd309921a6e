/**
 * The rate-limit manager: a lazily refilled global budget of 50 permits per
 * second, a map of per-bucket budgets learnt from rate-limit response headers,
 * and a rolling counter of invalid (403/404) responses.
 *
 * Every operation takes the wall-clock time `now` (seconds, exact) as a
 * parameter and returns the next state instead of mutating the manager.
 */
module RateLimiter {
  import opened Options

  /** Permits in one global window: 50 requests per second per bot. */
  const GlobalLimit: int := 50
  /** Length of the global window in seconds. */
  const GlobalWindow: real := 1.0
  /** Length of the invalid-request window in seconds (10 minutes). */
  const InvalidWindow: real := 600.0
  /** Invalid responses per window at which traffic should pause. */
  const InvalidCap: int := 10000

  /** One rate-limit bucket (`DiscordRateLimit`). */
  datatype RateLimit = RateLimit(
    limit: int,        // permits per window, as advertised
    remaining: int,    // permits left in the current window
    resetAfter: real,  // window length in seconds
    resetAt: real,     // absolute time the current window closes
    bucket: string)    // the bucket's name

  /** The manager's whole state (`RateLimitManager`). */
  datatype Manager = Manager(
    globalLimit: int,
    globalRemaining: int,
    globalReset: real,
    buckets: map<string, RateLimit>,
    invalidRequests: int,
    invalidReset: real)

  /** What `check_rate_limit` returns together with the next state: `None` to proceed, `Some(w)` to wait `w` seconds. */
  datatype Checked = Checked(next: Manager, wait: Option<real>)

  /** What `track_invalid_request` returns together with the next state: whether requests should pause. */
  datatype Tracked = Tracked(next: Manager, pause: bool)

  /**
   * The invariant every reachable manager keeps: the global limit is the
   * constant 50, the global budget stays within it, the invalid counter is
   * non-negative, and every stored bucket has a non-zero limit and is filed
   * under its own name.
   */
  predicate Valid(m: Manager) {
    && m.globalLimit == GlobalLimit
    && 0 <= m.globalRemaining <= m.globalLimit
    && 0 <= m.invalidRequests
    && forall k :: k in m.buckets ==> m.buckets[k].limit != 0 && m.buckets[k].bucket == k
  }

  /** A fresh manager created at time `now` (`RateLimitManager.__init__`). */
  function Init(now: real): (m: Manager)
    ensures Valid(m)
    ensures m.globalLimit == 50 && m.globalRemaining == 50
    ensures m.globalReset == now + 1.0
    ensures m.buckets == map[]
    ensures m.invalidRequests == 0 && m.invalidReset == now + 600.0
  {
    Manager(GlobalLimit, GlobalLimit, now + GlobalWindow, map[], 0, now + InvalidWindow)
  }

  // ---------------------------------------------------------------------------
  // Advisories from response headers
  // ---------------------------------------------------------------------------

  /**
   * One numeric header after Python's `int()`/`float()` conversion: missing,
   * converted, or rejected with `ValueError`/`TypeError`.
   */
  datatype Field<T> = Absent | Parsed(value: T) | Malformed

  /** The four rate-limit headers of one response. */
  datatype Headers = Headers(
    limit: Field<int>,        // X-RateLimit-Limit
    remaining: Field<int>,    // X-RateLimit-Remaining
    resetAfter: Field<real>,  // X-RateLimit-Reset-After
    bucket: Option<string>)   // X-RateLimit-Bucket

  /** The converted value of a field; a missing header reads as `default`. */
  function FieldOr<T>(f: Field<T>, default: T): T {
    if f.Parsed? then f.value else default
  }

  /** The bucket header, or the empty string when it is missing. */
  function BucketName(h: Headers): string {
    match h.bucket
    case Some(name) => name
    case None => ""
  }

  /** All three numeric headers convert without error. */
  predicate WellFormed(h: Headers) {
    !h.limit.Malformed? && !h.remaining.Malformed? && !h.resetAfter.Malformed?
  }

  /** The headers describe a bucket worth storing: they convert, name a bucket, and advertise a non-zero limit. */
  predicate Stores(h: Headers) {
    WellFormed(h) && BucketName(h) != "" && FieldOr(h.limit, 0) != 0
  }

  /**
   * `update_rate_limits`: record the advertised bucket, replacing any earlier
   * entry for the same name; headers that fail to convert, or that name no
   * bucket or a zero limit, leave the manager as it was.
   */
  function UpdateRateLimits(m: Manager, h: Headers, now: real): (r: Manager)
    ensures r.buckets.Keys == m.buckets.Keys + (if Stores(h) then {BucketName(h)} else {})
    ensures !Stores(h) ==> r == m
    ensures Stores(h) ==>
      var b := r.buckets[BucketName(h)];
      && b.limit == FieldOr(h.limit, 0)
      && b.remaining == FieldOr(h.remaining, 0)
      && b.resetAfter == FieldOr(h.resetAfter, 0.0)
      && b.resetAt == now + b.resetAfter
      && b.bucket == BucketName(h)
    ensures forall k :: k in m.buckets && k != BucketName(h) ==> r.buckets[k] == m.buckets[k]
    ensures r.(buckets := m.buckets) == m
    ensures Valid(m) ==> Valid(r)
  {
    if !WellFormed(h) then m
    else
      var limit := FieldOr(h.limit, 0);
      var remaining := FieldOr(h.remaining, 0);
      var resetAfter := FieldOr(h.resetAfter, 0.0);
      var name := BucketName(h);
      if name != "" && limit != 0 then
        m.(buckets := m.buckets[name := RateLimit(limit, remaining, resetAfter, now + resetAfter, name)])
      else m
  }

  // ---------------------------------------------------------------------------
  // Permit checks
  // ---------------------------------------------------------------------------

  /** The global permits available at `now` once an elapsed window has been refilled. */
  function GlobalAvailable(m: Manager, now: real): int {
    if now >= m.globalReset then m.globalLimit else m.globalRemaining
  }

  /** The bucket permits available at `now` once an elapsed window has been refilled. */
  function BucketAvailable(b: RateLimit, now: real): int {
    if now >= b.resetAt then b.limit else b.remaining
  }

  /** The lazy refill of the global window. */
  function RefillGlobal(m: Manager, now: real): Manager {
    if now >= m.globalReset then m.(globalRemaining := m.globalLimit, globalReset := now + GlobalWindow) else m
  }

  /** The lazy refill of one bucket's window. */
  function RefillBucket(b: RateLimit, now: real): RateLimit {
    if now >= b.resetAt then b.(remaining := b.limit, resetAt := now + b.resetAfter) else b
  }

  /**
   * `check_rate_limit(bucket)`: proceed, consuming one global permit and one
   * permit of the named bucket if it is known, or report how long to wait,
   * consuming nothing. Elapsed windows are refilled on the way.
   */
  function CheckRateLimit(m: Manager, name: string, now: real): (r: Checked)
    // the decision
    ensures r.wait.None? <==>
      GlobalAvailable(m, now) > 0 && (name in m.buckets ==> BucketAvailable(m.buckets[name], now) > 0)
    // exact consumption of the global budget
    ensures r.wait.None? ==> r.next.globalRemaining == GlobalAvailable(m, now) - 1
    ensures r.wait.Some? ==> r.next.globalRemaining == GlobalAvailable(m, now)
    // the global window is reopened exactly when it had elapsed
    ensures r.next.globalReset == if now >= m.globalReset then now + 1.0 else m.globalReset
    // frame: the limit, the invalid counter and the set of buckets never change
    ensures r.next.globalLimit == m.globalLimit
    ensures r.next.invalidRequests == m.invalidRequests && r.next.invalidReset == m.invalidReset
    ensures r.next.buckets.Keys == m.buckets.Keys
    ensures forall k :: k in m.buckets && k != name ==> r.next.buckets[k] == m.buckets[k]
    // an exhausted global budget leaves every bucket untouched
    ensures GlobalAvailable(m, now) <= 0 ==> r.next.buckets == m.buckets
    // exact consumption of the named bucket's budget
    ensures name in m.buckets && GlobalAvailable(m, now) > 0 ==>
      var b, b' := m.buckets[name], r.next.buckets[name];
      && b'.limit == b.limit && b'.resetAfter == b.resetAfter && b'.bucket == b.bucket
      && b'.remaining == BucketAvailable(b, now) - (if r.wait.None? then 1 else 0)
    // a bucket is decremented only from a positive count
    ensures name in m.buckets && r.wait.None? ==> r.next.buckets[name].remaining >= 0
    ensures name in m.buckets && 0 <= m.buckets[name].remaining <= m.buckets[name].limit ==>
      0 <= r.next.buckets[name].remaining <= r.next.buckets[name].limit
    // the named bucket's window is reopened exactly when it had elapsed
    ensures name in m.buckets && GlobalAvailable(m, now) > 0 ==>
      r.next.buckets[name].resetAt ==
        if now >= m.buckets[name].resetAt then now + m.buckets[name].resetAfter else m.buckets[name].resetAt
    // a wait lasts until the window that blocks the call closes
    ensures GlobalAvailable(m, now) <= 0 ==> r.wait == Some(r.next.globalReset - now)
    ensures r.wait.Some? && GlobalAvailable(m, now) > 0 ==>
      name in m.buckets && r.wait == Some(r.next.buckets[name].resetAt - now)
    // waits are positive, except after refilling a bucket whose advertised limit is negative
    ensures r.wait.Some? && GlobalAvailable(m, now) <= 0 ==> r.wait.value > 0.0
    ensures r.wait.Some? && r.wait.value <= 0.0 ==>
      && name in m.buckets
      && now >= m.buckets[name].resetAt
      && m.buckets[name].limit <= 0
      && r.wait.value == m.buckets[name].resetAfter
    ensures Valid(m) ==> Valid(r.next)
  {
    var g := RefillGlobal(m, now);
    if g.globalRemaining <= 0 then
      Checked(g, Some(g.globalReset - now))
    else if name in g.buckets then
      var b := RefillBucket(g.buckets[name], now);
      if b.remaining <= 0 then
        Checked(g.(buckets := g.buckets[name := b]), Some(b.resetAt - now))
      else
        Checked(g.(buckets := g.buckets[name := b.(remaining := b.remaining - 1)],
                   globalRemaining := g.globalRemaining - 1), None)
    else
      Checked(g.(globalRemaining := g.globalRemaining - 1), None)
  }

  // ---------------------------------------------------------------------------
  // Invalid-request tracking
  // ---------------------------------------------------------------------------

  /**
   * `track_invalid_request`: count one more invalid response in the current
   * 10-minute window (opening a new window first if the old one has elapsed)
   * and report whether the cap has been reached.
   */
  function TrackInvalidRequest(m: Manager, now: real): (r: Tracked)
    ensures now >= m.invalidReset ==> r.next.invalidRequests == 1 && r.next.invalidReset == now + 600.0
    ensures now < m.invalidReset ==>
      r.next.invalidRequests == m.invalidRequests + 1 && r.next.invalidReset == m.invalidReset
    ensures r.pause <==> r.next.invalidRequests >= 10000
    ensures r.next.(invalidRequests := m.invalidRequests, invalidReset := m.invalidReset) == m
    ensures Valid(m) ==> Valid(r.next)
  {
    var w := if now >= m.invalidReset then m.(invalidRequests := 0, invalidReset := now + InvalidWindow) else m;
    var n := w.(invalidRequests := w.invalidRequests + 1);
    Tracked(n, n.invalidRequests >= InvalidCap)
  }
}
