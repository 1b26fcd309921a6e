/**
 * The two decisions `RateLimitedCog` takes around every command: whether the
 * command may proceed, and whether a failed command counts as an invalid
 * request. Sending the "Rate Limited" embed and the error reply is left out;
 * only the booleans and the state change remain.
 */
module Cog {
  import opened Options
  import opened Errors
  import opened RateLimiter

  /** The next manager state and whether the command should proceed. */
  datatype Gate = Gate(next: Manager, proceed: bool)

  /** The next manager state and whether the "approaching invalid request limit" warning is printed. */
  datatype ErrorHandled = ErrorHandled(next: Manager, warned: bool)

  /**
   * Python truthiness of `check_rate_limit`'s answer: `None` and `0.0` are
   * falsy, every other wait (negative ones included) is truthy.
   */
  predicate Truthy(wait: Option<real>) {
    wait.Some? && wait.value != 0.0
  }

  /**
   * `handle_rate_limit`: run the check and let the command proceed when its
   * answer is falsy.
   */
  function HandleRateLimit(m: Manager, name: string, now: real): (r: Gate)
    ensures r.next == CheckRateLimit(m, name, now).next
    // proceeding means a permit was taken, or the check answered a zero wait
    ensures r.proceed ==>
      || r.next.globalRemaining == GlobalAvailable(m, now) - 1
      || (name in m.buckets && m.buckets[name].limit <= 0 && m.buckets[name].resetAfter == 0.0)
    // refusing means no permit was taken
    ensures !r.proceed ==> r.next.globalRemaining == GlobalAvailable(m, now)
    // with a positive advertised limit on the named bucket, proceeding is exactly the check's "go ahead"
    ensures (name in m.buckets ==> m.buckets[name].limit > 0) ==>
      (r.proceed <==> GlobalAvailable(m, now) > 0 && (name in m.buckets ==> BucketAvailable(m.buckets[name], now) > 0))
    // in general the command also proceeds on the falsy zero wait of a just-refilled bucket with a zero window
    ensures r.proceed <==>
      && GlobalAvailable(m, now) > 0
      && (name in m.buckets ==>
            || BucketAvailable(m.buckets[name], now) > 0
            || (now >= m.buckets[name].resetAt && m.buckets[name].resetAfter == 0.0))
  {
    var c := CheckRateLimit(m, name, now);
    Gate(c.next, !Truthy(c.wait))
  }

  /**
   * The bookkeeping part of `handle_command_error`: a 403 or 404 error is
   * recorded as an invalid request and reports whether to warn; any other
   * error leaves the manager alone.
   */
  function HandleCommandError(m: Manager, err: Error, now: real): (r: ErrorHandled)
    ensures !IsInvalidResponse(err) ==> r.next == m && !r.warned
    ensures IsInvalidResponse(err) ==>
      && r.next == TrackInvalidRequest(m, now).next
      && r.next.invalidRequests == (if now >= m.invalidReset then 0 else m.invalidRequests) + 1
      && r.next.invalidReset == (if now >= m.invalidReset then now + 600.0 else m.invalidReset)
      && (r.warned <==> r.next.invalidRequests >= 10000)
    ensures r.next.(invalidRequests := m.invalidRequests, invalidReset := m.invalidReset) == m
  {
    if IsInvalidResponse(err) then
      var t := TrackInvalidRequest(m, now);
      ErrorHandled(t.next, t.pause)
    else
      ErrorHandled(m, false)
  }

  /** One failed command: the error it raised and when. */
  datatype Failure = Failure(err: Error, at: real)

  /** The manager after a series of failed commands, and whether each one printed the warning. */
  datatype ErrorRun = ErrorRun(next: Manager, warnings: seq<bool>)

  /** Handles the failures one after the other, threading the state. */
  function HandleAll(m: Manager, fs: seq<Failure>): (r: ErrorRun)
    ensures |r.warnings| == |fs|
    decreases |fs|
  {
    if |fs| == 0 then ErrorRun(m, [])
    else
      var h := HandleCommandError(m, fs[0].err, fs[0].at);
      var rest := HandleAll(h.next, fs[1..]);
      ErrorRun(rest.next, [h.warned] + rest.warnings)
  }

  /** How many of the failures are 403 or 404 responses. */
  function InvalidIn(fs: seq<Failure>): nat
    decreases |fs|
  {
    if |fs| == 0 then 0 else (if IsInvalidResponse(fs[0].err) then 1 else 0) + InvalidIn(fs[1..])
  }

  /**
   * Within one invalid-request window only 403 and 404 errors are counted,
   * and failure i prints the warning exactly when it is one of them and the
   * count it brings the window to is at least 10,000.
   */
  lemma {:induction false} WarningCountsOnlyInvalidResponses(m: Manager, fs: seq<Failure>)
    requires forall i :: 0 <= i < |fs| ==> fs[i].at < m.invalidReset
    ensures HandleAll(m, fs).next.invalidRequests == m.invalidRequests + InvalidIn(fs)
    ensures forall i :: 0 <= i < |fs| ==>
      (HandleAll(m, fs).warnings[i] <==>
        IsInvalidResponse(fs[i].err) && m.invalidRequests + InvalidIn(fs[..i + 1]) >= 10000)
    decreases |fs|
  {
    if |fs| > 0 {
      var h := HandleCommandError(m, fs[0].err, fs[0].at);
      var rest := fs[1..];
      assert h.next.invalidReset == m.invalidReset;
      WarningCountsOnlyInvalidResponses(h.next, rest);
      var warnings := HandleAll(m, fs).warnings;
      assert warnings == [h.warned] + HandleAll(h.next, rest).warnings;
      var first := if IsInvalidResponse(fs[0].err) then 1 else 0;
      assert h.next.invalidRequests == m.invalidRequests + first;
      assert InvalidIn(fs[..1]) == first by {
        assert fs[..1][1..] == [];
      }
      forall i | 1 <= i < |fs|
        ensures warnings[i] == HandleAll(h.next, rest).warnings[i - 1]
        ensures InvalidIn(fs[..i + 1]) == first + InvalidIn(rest[..i])
      {
        assert fs[..i + 1][0] == fs[0] && fs[..i + 1][1..] == rest[..i];
      }
    }
  }

  /**
   * The edge the truthiness test opens: a bucket advertised with a negative
   * limit and a zero window makes the check answer "wait 0.0 seconds" without
   * taking a permit, and the cog lets the command proceed anyway.
   */
  lemma {:induction false} ZeroWaitProceedsWithoutPermit(t0: real)
    ensures
      var h := Headers(Parsed(-1), Parsed(0), Parsed(0.0), Some("docs"));
      var m := UpdateRateLimits(Init(t0), h, t0);
      var c := CheckRateLimit(m, "docs", t0);
      var g := HandleRateLimit(m, "docs", t0);
      && c.wait == Some(0.0)
      && g.proceed
      && g.next.globalRemaining == m.globalRemaining
  {
  }
}
