/**
 * Properties of the rate-limit manager over sequences of calls: the global
 * budget within one window, the invalid-request cap within one window, the
 * invariant under any interleaving, and the scenarios the repository's tests
 * exercise.
 */
module RateLimiterRuns {
  import opened Options
  import opened RateLimiter

  /** One `check_rate_limit` call: the bucket it names and the time it happens. */
  datatype Request = Request(bucket: string, at: real)

  /** The state after a series of checks, and each check's answer in order. */
  datatype CheckRun = CheckRun(next: Manager, waits: seq<Option<real>>)

  /** The state after a series of invalid responses, and each call's pause signal in order. */
  datatype TrackRun = TrackRun(next: Manager, pauses: seq<bool>)

  /** Any operation on the manager. */
  datatype Op = Advisory(h: Headers, at: real) | Check(req: Request) | Invalid(at: real)

  /** Runs the checks one after the other, threading the state. */
  function CheckAll(m: Manager, reqs: seq<Request>): (r: CheckRun)
    ensures |r.waits| == |reqs|
    decreases |reqs|
  {
    if |reqs| == 0 then CheckRun(m, [])
    else
      var c := CheckRateLimit(m, reqs[0].bucket, reqs[0].at);
      var rest := CheckAll(c.next, reqs[1..]);
      CheckRun(rest.next, [c.wait] + rest.waits)
  }

  /** Records the invalid responses one after the other, threading the state. */
  function TrackAll(m: Manager, times: seq<real>): (r: TrackRun)
    ensures |r.pauses| == |times|
    decreases |times|
  {
    if |times| == 0 then TrackRun(m, [])
    else
      var t := TrackInvalidRequest(m, times[0]);
      var rest := TrackAll(t.next, times[1..]);
      TrackRun(rest.next, [t.pause] + rest.pauses)
  }

  /** Applies one operation. */
  function Apply(m: Manager, op: Op): Manager {
    match op
    case Advisory(h, at) => UpdateRateLimits(m, h, at)
    case Check(req) => CheckRateLimit(m, req.bucket, req.at).next
    case Invalid(at) => TrackInvalidRequest(m, at).next
  }

  /** Applies the operations in order. */
  function ApplyAll(m: Manager, ops: seq<Op>): Manager
    decreases |ops|
  {
    if |ops| == 0 then m else ApplyAll(Apply(m, ops[0]), ops[1..])
  }

  /** The number of checks in a run that were allowed to proceed. */
  function Proceeded(waits: seq<Option<real>>): nat
    decreases |waits|
  {
    if |waits| == 0 then 0 else (if waits[0].None? then 1 else 0) + Proceeded(waits[1..])
  }

  /** The manager invariant holds after any sequence of advisories, checks and invalid responses. */
  lemma {:induction false} ValidAfterAnyOps(m: Manager, ops: seq<Op>)
    requires Valid(m)
    ensures Valid(ApplyAll(m, ops))
    decreases |ops|
  {
    if |ops| > 0 {
      var m' := Apply(m, ops[0]);
      assert Valid(m');
      ValidAfterAnyOps(m', ops[1..]);
    }
  }

  /**
   * Within one global window, with no bucket entries in play, the i-th check
   * proceeds exactly when i is below the permits left, and every later check
   * is told to wait a positive time.
   */
  lemma {:induction false} GlobalBudgetWithinWindow(m: Manager, reqs: seq<Request>)
    requires 0 <= m.globalRemaining
    requires forall i :: 0 <= i < |reqs| ==> reqs[i].at < m.globalReset && reqs[i].bucket !in m.buckets
    ensures forall i :: 0 <= i < |reqs| ==> (CheckAll(m, reqs).waits[i].None? <==> i < m.globalRemaining)
    ensures forall i :: 0 <= i < |reqs| && i >= m.globalRemaining ==>
      CheckAll(m, reqs).waits[i].Some? && CheckAll(m, reqs).waits[i].value > 0.0
    decreases |reqs|
  {
    if |reqs| > 0 {
      var c := CheckRateLimit(m, reqs[0].bucket, reqs[0].at);
      var rest := reqs[1..];
      assert c.next.globalReset == m.globalReset && c.next.buckets.Keys == m.buckets.Keys;
      assert c.next.globalRemaining == if m.globalRemaining > 0 then m.globalRemaining - 1 else 0;
      GlobalBudgetWithinWindow(c.next, rest);
      var waits := CheckAll(m, reqs).waits;
      assert waits == [c.wait] + CheckAll(c.next, rest).waits;
      forall i | 1 <= i < |reqs|
        ensures waits[i] == CheckAll(c.next, rest).waits[i - 1]
      {
      }
    }
  }

  /**
   * Within one global window no more checks proceed than there were global
   * permits left, whatever buckets they name.
   */
  lemma {:induction false} GlobalBudgetNeverExceeded(m: Manager, reqs: seq<Request>)
    requires 0 <= m.globalRemaining
    requires forall i :: 0 <= i < |reqs| ==> reqs[i].at < m.globalReset
    ensures Proceeded(CheckAll(m, reqs).waits) <= m.globalRemaining
    ensures CheckAll(m, reqs).next.globalRemaining == m.globalRemaining - Proceeded(CheckAll(m, reqs).waits)
    decreases |reqs|
  {
    if |reqs| > 0 {
      var c := CheckRateLimit(m, reqs[0].bucket, reqs[0].at);
      var rest := CheckAll(c.next, reqs[1..]);
      GlobalBudgetNeverExceeded(c.next, reqs[1..]);
      var waits := CheckAll(m, reqs).waits;
      assert waits == [c.wait] + rest.waits;
      assert waits[1..] == rest.waits;
    }
  }

  /**
   * A fresh manager lets exactly the first 50 checks of its first second
   * proceed; the 51st and later are told to wait a positive time.
   */
  lemma {:induction false} FreshGlobalBudget(t0: real, reqs: seq<Request>)
    requires forall i :: 0 <= i < |reqs| ==> reqs[i].at < t0 + 1.0
    ensures forall i :: 0 <= i < |reqs| ==> (CheckAll(Init(t0), reqs).waits[i].None? <==> i < 50)
    ensures forall i :: 50 <= i < |reqs| ==> CheckAll(Init(t0), reqs).waits[i].Some? && CheckAll(Init(t0), reqs).waits[i].value > 0.0
  {
    GlobalBudgetWithinWindow(Init(t0), reqs);
  }

  /**
   * Within one invalid-request window the counter grows by one per call and
   * the i-th call signals a pause exactly when the count it reaches is at
   * least 10,000.
   */
  lemma {:induction false} InvalidCountWithinWindow(m: Manager, times: seq<real>)
    requires forall i :: 0 <= i < |times| ==> times[i] < m.invalidReset
    ensures TrackAll(m, times).next.invalidRequests == m.invalidRequests + |times|
    ensures forall i :: 0 <= i < |times| ==> (TrackAll(m, times).pauses[i] <==> m.invalidRequests + i + 1 >= 10000)
    decreases |times|
  {
    if |times| > 0 {
      var t := TrackInvalidRequest(m, times[0]);
      var rest := times[1..];
      InvalidCountWithinWindow(t.next, rest);
      var pauses := TrackAll(m, times).pauses;
      assert pauses == [t.pause] + TrackAll(t.next, rest).pauses;
      forall i | 1 <= i < |times|
        ensures pauses[i] == TrackAll(t.next, rest).pauses[i - 1]
      {
      }
    }
  }

  /**
   * On a fresh manager, within its first 10 minutes, calls 1 to 9,999 do not
   * signal a pause and call 10,000 and every later one does.
   */
  lemma {:induction false} FreshInvalidCap(t0: real, times: seq<real>)
    requires forall i :: 0 <= i < |times| ==> times[i] < t0 + 600.0
    ensures forall i :: 0 <= i < |times| ==> (TrackAll(Init(t0), times).pauses[i] <==> i + 1 >= 10000)
  {
    InvalidCountWithinWindow(Init(t0), times);
  }

  /**
   * A bucket advertised with limit 2, remaining 2 and a 60-second window:
   * two checks proceed, the third waits 60 seconds, and once the window has
   * closed a check proceeds again.
   */
  lemma {:induction false} BucketOfTwo(t0: real, t1: real)
    requires t1 >= t0 + 60.0
    ensures
      var h := Headers(Parsed(2), Parsed(2), Parsed(60.0), Some("test_bucket"));
      var m1 := UpdateRateLimits(Init(t0), h, t0);
      var c1 := CheckRateLimit(m1, "test_bucket", t0);
      var c2 := CheckRateLimit(c1.next, "test_bucket", t0);
      var c3 := CheckRateLimit(c2.next, "test_bucket", t0);
      var c4 := CheckRateLimit(c3.next, "test_bucket", t1);
      && m1.buckets["test_bucket"].limit == 2
      && m1.buckets["test_bucket"].remaining == 2
      && m1.buckets["test_bucket"].resetAfter == 60.0
      && c1.wait.None? && c2.wait.None?
      && c3.wait == Some(60.0)
      && c4.wait.None?
  {
  }

  /**
   * The reset scenario: a bucket of one permit with a 0.1 s window is used
   * up by one check, the next check waits, and once the window has closed a
   * check proceeds again.
   */
  lemma {:induction false} BucketResetsAfterWindow(t0: real, t1: real)
    requires t1 >= t0 + 0.1
    ensures
      var h := Headers(Parsed(1), Parsed(1), Parsed(0.1), Some("test_bucket"));
      var m1 := UpdateRateLimits(Init(t0), h, t0);
      var c1 := CheckRateLimit(m1, "test_bucket", t0);
      var c2 := CheckRateLimit(c1.next, "test_bucket", t0);
      var c3 := CheckRateLimit(c2.next, "test_bucket", t1);
      && c1.wait.None?
      && c2.wait == Some(0.1)
      && c3.wait.None?
  {
  }
}
